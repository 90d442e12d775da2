/** Notifications per (instance, account) on one phone (push-manager.ts): the saved
    records, the native keys and the relay's subscriptions, kept in step although
    any remote call may fail. */
module PushManager {
  import opened Common

  // --- What is stored where ---------------------------------------------------------------

  datatype PushToken = PushToken(provider: Platform, token: string, environment: Option<string>)

  datatype DeviceKey = DeviceKey(origin: string, id: string)

  /** This phone on a relay, in the secure store. */
  datatype RelayDevice = RelayDevice(origin: string, id: string, platform: Platform, token: string,
                                     environment: Option<string>) {
    function Key(): DeviceKey { DeviceKey(origin, id) }

    predicate HasToken(t: PushToken) {
      token == t.token && (t.provider.Apns? ==> environment == t.environment)
    }

    function WithToken(t: PushToken): RelayDevice {
      this.(token := t.token, environment := if t.provider.Apns? then t.environment else environment)
    }
  }

  /** One account with notifications on. */
  datatype Record = Record(
    identity: string,
    subscription: string,
    endpoint: string,
    origin: string,
    instanceKey: string,
    pusher: string,
    stale: bool)

  datatype Removal = Removal(origin: string, subscription: string)

  datatype State = State(instances: seq<Record>, prompted: seq<string>, pending: seq<Removal>, touchedAt: Option<int>)

  const MAX_PENDING_REMOVALS := 64
  const MAX_PROMPTED := 64
  const DEVICE_TOUCH_INTERVAL_MS := 7 * 24 * 60 * 60 * 1000

  /** The relays: the devices they know, their subscriptions, and everything they
      ever issued. */
  datatype Relay = Relay(known: set<DeviceKey>, subs: map<string, DeviceKey>, issued: map<string, DeviceKey>,
                         devices: set<DeviceKey>)

  /** The native key store, and the keys lost outside the app. */
  datatype Native = Native(keys: set<string>, lost: set<string>)

  /** What a subscription can be in use with: the saved device and the relay of the
      build. */
  datatype Use = Use(device: Option<DeviceKey>, origin: Option<string>)

  /** What became of subscriptions that are no longer recorded: pushed out of a full
      queue (at this instant of `queues`, every value the queue had), or given up
      when their device or relay was not in use (but this). */
  datatype Book = Book(
    dropped: set<string>,
    queues: seq<seq<Removal>>,
    evicted: map<string, nat>,
    retired: map<string, Use>)

  // --- Lists -----------------------------------------------------------------------------------

  function AllStale(l: seq<Record>): (r: seq<Record>)
    ensures |r| == |l| && forall i :: 0 <= i < |l| ==> r[i] == l[i].(stale := true)
  {
    seq(|l|, i requires 0 <= i < |l| => l[i].(stale := true))
  }

  /** The records of other subscriptions. */
  function Without(l: seq<Record>, subscription: string): (r: seq<Record>)
    ensures forall x :: x in r <==> x in l && x.subscription != subscription
  {
    if l == [] then []
    else
      var n := |l| - 1;
      Without(l[..n], subscription) + if l[n].subscription != subscription then [l[n]] else []
  }

  /** The records of other accounts. */
  function Except(l: seq<Record>, identity: string): (r: seq<Record>)
    ensures forall x :: x in r <==> x in l && x.identity != identity
  {
    if l == [] then []
    else
      var n := |l| - 1;
      Except(l[..n], identity) + if l[n].identity != identity then [l[n]] else []
  }

  lemma {:induction false} DistinctWithout(l: seq<Record>, subscription: string)
    requires Distinct(l)
    ensures Distinct(Without(l, subscription))
  {
    if l != [] { DistinctWithout(l[..|l| - 1], subscription); }
  }

  lemma {:induction false} DistinctExcept(l: seq<Record>, identity: string)
    requires Distinct(l)
    ensures Distinct(Except(l, identity))
  {
    if l != [] { DistinctExcept(l[..|l| - 1], identity); }
  }

  ghost predicate Distinct(l: seq<Record>) {
    forall i, j :: 0 <= i < j < |l| ==> l[i].identity != l[j].identity && l[i].subscription != l[j].subscription
  }

  function Newest<T>(l: seq<T>, n: nat): seq<T> {
    if |l| <= n then l else l[|l| - n..]
  }

  function RememberPrompt(prompted: seq<string>, identity: string): seq<string> {
    Newest(Unprompted(prompted, identity) + [identity], MAX_PROMPTED)
  }

  function Unprompted(prompted: seq<string>, identity: string): (r: seq<string>)
    ensures forall x :: x in r <==> x in prompted && x != identity
  {
    if prompted == [] then []
    else
      var n := |prompted| - 1;
      Unprompted(prompted[..n], identity) + if prompted[n] != identity then [prompted[n]] else []
  }

  /** The account asked last is remembered once, with the 63 asked before it. */
  lemma PromptRemembered(prompted: seq<string>, identity: string)
    ensures
      var r := RememberPrompt(prompted, identity);
      && 0 < |r| <= 64 && r[|r| - 1] == identity
      && (forall i :: 0 <= i < |r| - 1 ==> r[i] in prompted && r[i] != identity)
      && (|prompted| < 64 ==> forall x :: x in prompted ==> x in r)
      && (|prompted| == 64 && identity in prompted ==> forall x :: x in prompted ==> x in r)
      && (|prompted| >= 63 && identity !in prompted ==> r == prompted[|prompted| - 63..] + [identity])
  {
    var others := Unprompted(prompted, identity);
    var r := RememberPrompt(prompted, identity);
    var cut := |others| + 1 - |r|;
    forall i | 0 <= i < |r| - 1 ensures r[i] in prompted && r[i] != identity {
      assert r[i] == others[cut + i] && others[cut + i] in others;
    }
    UnpromptedShorter(prompted, identity);
    if identity !in prompted { assert others == prompted; }
    if |others| < MAX_PROMPTED {
      forall x | x in prompted ensures x in r {
        if x == identity { assert r[|r| - 1] == x; }
        else {
          var i :| 0 <= i < |others| && others[i] == x;
          assert r[i] == x;
        }
      }
    }
  }

  lemma {:induction false} UnpromptedShorter(prompted: seq<string>, identity: string)
    ensures |Unprompted(prompted, identity)| <= |prompted|
    ensures identity in prompted ==> |Unprompted(prompted, identity)| < |prompted|
    ensures identity !in prompted ==> Unprompted(prompted, identity) == prompted
  {
    if prompted != [] {
      var n := |prompted| - 1;
      UnpromptedShorter(prompted[..n], identity);
      assert prompted == prompted[..n] + [prompted[n]] && prompted[n] in prompted;
    }
  }

  // --- Invariants ---------------------------------------------------------------------------------

  ghost predicate RelayOk(r: Relay) {
    && r.known <= r.devices
    && (forall s :: s in r.subs ==> s in r.issued && r.subs[s] == r.issued[s] && r.subs[s] in r.known)
    && (forall s :: s in r.issued ==> r.issued[s] in r.devices)
  }

  /** Ids are never issued twice, so what is gone stays gone. */
  ghost predicate RelayLater(r: Relay, r': Relay) {
    && RelayOk(r')
    && r.devices <= r'.devices
    && (forall s :: s in r.issued ==> s in r'.issued && r'.issued[s] == r.issued[s])
    && (forall s :: s in r.issued && s in r'.subs ==> s in r.subs)
  }

  /** Nothing but keys lost outside the app. */
  ghost predicate NativeQuiet(n: Native, n': Native) {
    n'.keys <= n.keys && n.lost <= n'.lost && n.keys <= n'.keys + n'.lost
  }

  /** A record is stale exactly when its subscription is not of the saved device;
      its keys are there unless they were lost outside the app. */
  ghost predicate RecordOk(r: Record, device: Option<RelayDevice>, relay: Relay, native: Native) {
    && Issued(r.subscription, r.origin, relay)
    && (r.stale <==> !(device.Some? && device.value.Key() == relay.issued[r.subscription]))
    && (r.subscription in native.keys || r.subscription in native.lost)
  }

  ghost predicate Issued(subscription: string, origin: string, relay: Relay) {
    subscription in relay.issued && relay.issued[subscription].origin == origin
  }

  /** A dropped subscription is gone from its relay, queued, evicted from the queue,
      or was given up when its device or relay was not in use. */
  ghost predicate Settled(s: string, pending: seq<Removal>, relay: Relay, book: Book) {
    s in relay.issued && (s !in relay.subs || Queued(s, pending) || s in book.evicted || s in book.retired)
  }

  function UseOf(device: Option<RelayDevice>, origin: Option<string>): Use {
    Use(if device.Some? then Some(device.value.Key()) else None, origin)
  }

  /** The subscription's device is the saved one, on the relay this build uses. */
  predicate InUse(key: DeviceKey, u: Use) {
    u.device == Some(key) && u.origin == Some(key.origin)
  }

  /** The queued subscriptions are dropped ones, each queued once. */
  ghost predicate Waiting(queue: seq<Removal>, dropped: set<string>) {
    && (forall i :: 0 <= i < |queue| ==> queue[i].subscription in dropped)
    && (forall i, j :: 0 <= i < j < |queue| ==> queue[i].subscription != queue[j].subscription)
  }

  /** At instant `k` the oldest of a full queue, which one more removal pushed out. */
  ghost predicate Overflowed(s: string, k: nat, book: Book) {
    && k + 1 < |book.queues|
    && |book.queues[k]| == MAX_PENDING_REMOVALS && book.queues[k][0].subscription == s
    && Waiting(book.queues[k], book.dropped)
    && OneMore(book.queues[k], book.queues[k + 1])
  }

  ghost predicate OneMore(queue: seq<Removal>, queue': seq<Removal>) {
    queue' != [] && queue' == Enqueued(queue, queue'[|queue'| - 1])
  }

  /** The queue gets one more removal, or loses some. */
  ghost predicate QueueStep(queue: seq<Removal>, queue': seq<Removal>) {
    OneMore(queue, queue') || forall p :: p in queue' ==> p in queue
  }

  ghost predicate StepAt(queues: seq<seq<Removal>>, k: nat)
    requires k + 1 < |queues|
  {
    QueueStep(queues[k], queues[k + 1])
  }

  ghost predicate QueuesOk(queues: seq<seq<Removal>>, pending: seq<Removal>) {
    && queues != [] && queues[|queues| - 1] == pending
    && forall k {:trigger StepAt(queues, k)} :: 0 <= k < |queues| - 1 ==> StepAt(queues, k)
  }

  lemma QueuesNext(queues: seq<seq<Removal>>, pending: seq<Removal>, pending': seq<Removal>)
    requires QueuesOk(queues, pending) && QueueStep(pending, pending')
    ensures QueuesOk(queues + [pending'], pending')
  {
    var longer := queues + [pending'];
    forall k: nat | k < |longer| - 1 ensures StepAt(longer, k) {
      if k < |queues| - 1 { assert StepAt(queues, k); }
    }
  }

  lemma OverflowedStays(s: string, k: nat, book: Book, book': Book)
    requires Overflowed(s, k, book) && book.queues <= book'.queues && book.dropped <= book'.dropped
    ensures Overflowed(s, k, book')
  {
    assert book'.queues[k] == book.queues[k] && book'.queues[k + 1] == book.queues[k + 1];
  }

  ghost predicate BookOk(book: Book, relay: Relay) {
    && (forall s :: s in book.retired ==> RetiredOk(s, book, relay))
    && (forall s :: s in book.evicted ==> Overflowed(s, book.evicted[s], book))
  }

  ghost predicate RetiredOk(s: string, book: Book, relay: Relay)
    requires s in book.retired
  {
    s in book.dropped && s in relay.issued && !InUse(relay.issued[s], book.retired[s])
  }

  ghost predicate Queued(s: string, pending: seq<Removal>) {
    exists p :: p in pending && p.subscription == s
  }

  ghost predicate Sound(device: Option<RelayDevice>, state: State, relay: Relay, native: Native, book: Book) {
    && RelayOk(relay)
    && (device.Some? ==> device.value.Key() in relay.devices)
    && Distinct(state.instances)
    && (forall r :: r in state.instances ==> RecordOk(r, device, relay, native) && r.subscription !in book.dropped)
    && |state.pending| <= MAX_PENDING_REMOVALS
    && (forall p :: p in state.pending ==> Issued(p.subscription, p.origin, relay))
    && Waiting(state.pending, book.dropped)
    && (forall s :: s in book.dropped ==> Settled(s, state.pending, relay, book))
    && BookOk(book, relay) && QueuesOk(book.queues, state.pending)
  }

  lemma SoundLater(device: Option<RelayDevice>, state: State, relay: Relay, native: Native, book: Book, relay': Relay,
                   native': Native)
    requires Sound(device, state, relay, native, book)
    requires RelayLater(relay, relay') && native.keys + native.lost <= native'.keys + native'.lost
    ensures Sound(device, state, relay', native', book)
  {
    forall r | r in state.instances ensures RecordOk(r, device, relay', native') {
      assert RecordOk(r, device, relay, native);
    }
    forall s | s in book.dropped ensures Settled(s, state.pending, relay', book) {
      assert Settled(s, state.pending, relay, book);
    }
    forall s | s in book.retired ensures RetiredOk(s, book, relay') {
      assert RetiredOk(s, book, relay);
    }
  }

  /** The queued subscriptions are given up for this use. */
  function Retire(retired: map<string, Use>, pending: seq<Removal>, u: Use): (r: map<string, Use>)
    ensures forall s :: s in r <==> s in retired || Queued(s, pending)
    ensures forall s :: s in r ==> if Queued(s, pending) then r[s] == u else s in retired && r[s] == retired[s]
  {
    if pending == [] then retired
    else
      var n := |pending| - 1;
      Retire(retired, pending[..n], u)[pending[n].subscription := u]
  }

  /** A new device: every record is stale, and what was queued is of a device no
      longer in use. */
  lemma SoundRegistered(device: Option<RelayDevice>, state: State, relay: Relay, native: Native, book: Book,
                        d: RelayDevice, at: int)
    requires Sound(device, state, relay, native, book)
    requires d.Key() in relay.devices && forall s :: s in relay.issued ==> relay.issued[s] != d.Key()
    ensures
      var state' := state.(instances := AllStale(state.instances), pending := [], touchedAt := Some(at));
      var u := UseOf(Some(d), Some(d.origin));
      var book' := book.(retired := Retire(book.retired, state.pending, u), queues := book.queues + [[]]);
      && Sound(Some(d), state', relay, native, book')
      && NoneDropped(book, book', state.pending) && Retiring(book, book', relay, u)
  {
    var state' := state.(instances := AllStale(state.instances), pending := [], touchedAt := Some(at));
    var u := UseOf(Some(d), Some(d.origin));
    var book' := book.(retired := Retire(book.retired, state.pending, u), queues := book.queues + [[]]);
    forall r | r in state'.instances ensures RecordOk(r, Some(d), relay, native) && r.subscription !in book.dropped {
      var i :| 0 <= i < |state'.instances| && state'.instances[i] == r;
      assert RecordOk(state.instances[i], device, relay, native);
    }
    forall s | s in book'.dropped ensures Settled(s, state'.pending, relay, book') {
      assert Settled(s, state.pending, relay, book);
    }
    forall s | s in book'.retired ensures RetiredOk(s, book', relay) && !InUse(relay.issued[s], u) {
      if !Queued(s, state.pending) { assert RetiredOk(s, book, relay); }
    }
    QueuesNext(book.queues, state.pending, []);
    forall s | s in book'.evicted ensures Overflowed(s, book'.evicted[s], book') {
      OverflowedStays(s, book.evicted[s], book, book');
    }
  }

  function PendingIds(pending: seq<Removal>): (r: set<string>)
    ensures forall s :: s in r <==> Queued(s, pending)
  {
    set p | p in pending :: p.subscription
  }

  function Enqueued(pending: seq<Removal>, p: Removal): seq<Removal> {
    Newest(pending + [p], MAX_PENDING_REMOVALS)
  }

  /** A full queue loses its oldest removal and nothing else. */
  lemma EnqueuedKeepsNewest(pending: seq<Removal>, p: Removal)
    requires |pending| <= 64
    ensures Enqueued(pending, p) == (if |pending| < 64 then pending else pending[1..]) + [p]
    ensures |Enqueued(pending, p)| <= 64 && Queued(p.subscription, Enqueued(pending, p))
    ensures forall s :: Queued(s, pending) ==>
      Queued(s, Enqueued(pending, p)) || (|pending| == 64 && s == pending[0].subscription)
  {
    var after := Enqueued(pending, p);
    assert after[|after| - 1] == p;
    forall s | Queued(s, pending)
      ensures Queued(s, after) || (|pending| == MAX_PENDING_REMOVALS && s == pending[0].subscription)
    {
      var q :| q in pending && q.subscription == s;
      var i :| 0 <= i < |pending| && pending[i] == q;
      if |pending| < MAX_PENDING_REMOVALS {
        assert after[i] == q;
      } else if i > 0 {
        assert after[i - 1] == q;
      }
    }
  }

  /** One more removal pushes the oldest out of a full queue, at instant `k`. */
  function Evicting(evicted: map<string, nat>, pending: seq<Removal>, k: nat): map<string, nat> {
    if |pending| < MAX_PENDING_REMOVALS then evicted else evicted[pending[0].subscription := k]
  }

  /** The record of `p.subscription` is dropped; `queue` says whether the relay
      still has to be told, `gone` that it has it no longer. */
  function Dropped(state: State, p: Removal, queue: bool): State {
    state.(instances := Without(state.instances, p.subscription),
           pending := if queue then Enqueued(state.pending, p) else state.pending)
  }

  function DroppedBook(book: Book, pending: seq<Removal>, p: Removal, queue: bool, gone: bool, u: Use): Book
    requires book.queues != []
  {
    Book(book.dropped + {p.subscription},
         if queue then book.queues + [Enqueued(pending, p)] else book.queues,
         if queue then Evicting(book.evicted, pending, |book.queues| - 1) else book.evicted,
         if gone || queue then book.retired else book.retired[p.subscription := u])
  }

  lemma SoundDropped(device: Option<RelayDevice>, state: State, relay: Relay, native: Native, native': Native,
                     book: Book, p: Removal, queue: bool, gone: bool, u: Use)
    requires Sound(device, state, relay, native, book)
    requires Issued(p.subscription, p.origin, relay) && p.subscription !in book.dropped
    requires native.keys + native.lost <= native'.keys + native'.lost + {p.subscription}
    requires !(gone && queue)
    requires gone ==> p.subscription !in relay.subs
    requires !gone && !queue ==> !InUse(relay.issued[p.subscription], u)
    ensures
      var book' := DroppedBook(book, state.pending, p, queue, gone, u);
      && Sound(device, Dropped(state, p, queue), relay, native', book')
      && Retiring(book, book', relay, u) && Evictions(book, book')
  {
    var state', book' := Dropped(state, p, queue), DroppedBook(book, state.pending, p, queue, gone, u);
    forall r | r in state'.instances
      ensures RecordOk(r, device, relay, native') && r.subscription !in book'.dropped
    {
      assert RecordOk(r, device, relay, native);
    }
    DistinctWithout(state.instances, p.subscription);
    if queue { EnqueuedKeepsNewest(state.pending, p); }
    forall x | x in state'.pending ensures Issued(x.subscription, x.origin, relay) {
      assert queue ==> x in state.pending + [p];
    }
    forall s | s in book'.dropped ensures Settled(s, state'.pending, relay, book') {
      if s in book.dropped { assert Settled(s, state.pending, relay, book); }
    }
    BookDropped(state.pending, relay, book, p, queue, gone, u);
  }

  lemma BookDropped(pending: seq<Removal>, relay: Relay, book: Book, p: Removal, queue: bool, gone: bool, u: Use)
    requires BookOk(book, relay) && QueuesOk(book.queues, pending)
    requires Waiting(pending, book.dropped) && |pending| <= MAX_PENDING_REMOVALS
    requires p.subscription in relay.issued && p.subscription !in book.dropped
    requires !gone && !queue ==> !InUse(relay.issued[p.subscription], u)
    ensures
      var book' := DroppedBook(book, pending, p, queue, gone, u);
      var pending' := if queue then Enqueued(pending, p) else pending;
      && BookOk(book', relay) && QueuesOk(book'.queues, pending') && Waiting(pending', book'.dropped)
      && Retiring(book, book', relay, u) && Evictions(book, book')
  {
    var book' := DroppedBook(book, pending, p, queue, gone, u);
    forall s | s in book'.retired ensures RetiredOk(s, book', relay) {
      if s != p.subscription || gone || queue { assert RetiredOk(s, book, relay); }
    }
    if queue {
      EnqueuedWaits(pending, p, book.dropped);
      QueuesNext(book.queues, pending, Enqueued(pending, p));
    }
    EvictedDropped(pending, book, book', p, queue);
  }

  lemma EnqueuedWaits(pending: seq<Removal>, p: Removal, dropped: set<string>)
    requires Waiting(pending, dropped) && |pending| <= 64 && p.subscription !in dropped
    ensures Waiting(Enqueued(pending, p), dropped + {p.subscription})
  {
    EnqueuedKeepsNewest(pending, p);
  }

  lemma EvictedDropped(pending: seq<Removal>, book: Book, book': Book, p: Removal, queue: bool)
    requires QueuesOk(book.queues, pending) && |pending| <= MAX_PENDING_REMOVALS && Waiting(pending, book.dropped)
    requires forall s :: s in book.evicted ==> Overflowed(s, book.evicted[s], book)
    requires book.dropped <= book'.dropped
    requires book'.queues == if queue then book.queues + [Enqueued(pending, p)] else book.queues
    requires book'.evicted == if queue then Evicting(book.evicted, pending, |book.queues| - 1) else book.evicted
    requires p.subscription !in book.dropped
    ensures forall s :: s in book'.evicted ==> Overflowed(s, book'.evicted[s], book')
    ensures Evictions(book, book')
  {
    forall s | s in book'.evicted ensures Overflowed(s, book'.evicted[s], book') {
      if s in book.evicted && book'.evicted[s] == book.evicted[s] {
        OverflowedStays(s, book.evicted[s], book, book');
      } else {
        NewlyEvicted(s, pending, book, book', p);
      }
    }
  }

  lemma NewlyEvicted(s: string, pending: seq<Removal>, book: Book, book': Book, p: Removal)
    requires QueuesOk(book.queues, pending) && |pending| == 64 && Waiting(pending, book.dropped)
    requires s == pending[0].subscription && book.dropped <= book'.dropped
    requires book'.queues == book.queues + [Enqueued(pending, p)]
    ensures Overflowed(s, |book.queues| - 1, book')
  {
    var k := |book.queues| - 1;
    EnqueuedKeepsNewest(pending, p);
    assert book'.queues[k] == pending && book'.queues[k + 1] == Enqueued(pending, p);
  }

  /** A fresh record of the saved device replaces the account's. */
  lemma SoundRecorded(device: Option<RelayDevice>, state: State, relay: Relay, native: Native, book: Book, r: Record)
    requires Sound(device, state, relay, native, book)
    requires RecordOk(r, device, relay, native) && r.subscription !in book.dropped
    requires forall x :: x in state.instances ==> x.subscription != r.subscription
    requires forall x :: x in state.instances ==> x.identity != r.identity
    ensures Sound(device, state.(instances := Except(state.instances, r.identity) + [r]), relay, native, book)
  {
    DistinctExcept(state.instances, r.identity);
  }

  // --- What remote calls answer --------------------------------------------------------------------

  datatype RelayFault = DeviceUnknown | DeviceTokenInvalid | OtherFault

  datatype Answer<+T> = Ok(value: T) | Failed(fault: RelayFault)

  datatype Problem =
    | Unsupported | RelayNotBuilt | NoSecureStorage | PushUnavailable | PermissionDenied
    | InstanceSecretNotConfigured | InstanceRelayNotConfigured | InstanceIssuerNotHttps
    | RelayNotAllowed | PusherLimit | CredentialNotAccountWide | RelayFailed | InstanceFailed
    | SessionFailed

  datatype Result<+T> = Success(value: T) | Failure(problem: Problem)

  /** The instance's pushers and key, or why it has none. */
  datatype Config = Config(pushers: set<string>, key: Option<string>, reason: Problem)

  datatype Pusher = Pusher(id: string)

  datatype Created = Created(subscription: string, endpoint: string)

  datatype Probe = Alive | Forgotten | Unknown

  /** What a check learned: the record, whether there was a session, the instance's
      answer, what the relay was found to know (after so many failed calls), the native
      keys and the token. */
  datatype Findings = Findings(record: Option<Record>, usable: bool, config: Option<Config>, probe: Option<Probe>,
                               failed: nat, listed: Option<seq<string>>, token: Option<PushToken>)

  datatype CheckResult = Off | Fine | Resubscribed | Removed | Unavailable(problem: Problem) | Undecided

  /** What the relays forgot on their own. */
  ghost predicate Forgets(r: Relay, r': Relay) {
    RelayLater(r, r') && r'.issued == r.issued && r'.devices == r.devices && r'.known <= r.known
  }

  /** Sound speaks only of the device's key, the records and the queue. */
  lemma SoundTouched(device: Option<RelayDevice>, device': Option<RelayDevice>, state: State, state': State,
                     relay: Relay, native: Native, book: Book)
    requires Sound(device, state, relay, native, book)
    requires device.Some? && device'.Some? && device.value.Key() == device'.value.Key()
    requires state.instances == state'.instances && state.pending == state'.pending
    ensures Sound(device', state', relay, native, book)
  {
    forall r | r in state'.instances ensures RecordOk(r, device', relay, native) {
      assert RecordOk(r, device, relay, native);
    }
    forall x | x in book.dropped ensures Settled(x, state'.pending, relay, book) {
      assert Settled(x, state.pending, relay, book);
    }
  }

  /** The device was registered again: all records stale, nothing queued. */
  ghost predicate Renewed(s: State, s': State) {
    s'.instances == AllStale(s.instances) && s'.pending == [] && s'.prompted == s.prompted
  }

  /** What work on the relay device does to the records: nothing, or it was
      registered again. */
  ghost predicate DeviceWork(s: State, s': State) {
    Renewed(s, s') || (s'.instances == s.instances && s'.pending == s.pending && s'.prompted == s.prompted)
  }

  lemma DeviceWorkTransitive(a: State, b: State, c: State)
    requires DeviceWork(a, b) && DeviceWork(b, c)
    ensures DeviceWork(a, c)
  {
    assert AllStale(AllStale(a.instances)) == AllStale(a.instances);
  }

  /** Nothing was dropped; what was queued may have been retired with its device. */
  ghost predicate NoneDropped(b: Book, b': Book, pending: seq<Removal>) {
    && b'.dropped == b.dropped && b'.evicted == b.evicted && b.queues <= b'.queues
    && b.retired.Keys <= b'.retired.Keys <= b.retired.Keys + PendingIds(pending)
  }

  /** What was evicted since was so from a later queue. */
  ghost predicate Evictions(b: Book, b': Book) {
    && b.queues <= b'.queues
    && forall s :: s in b'.evicted && (s !in b.evicted || b'.evicted[s] != b.evicted[s]) ==>
         |b.queues| - 1 <= b'.evicted[s]
  }

  lemma EvictionsTransitive(a: Book, b: Book, c: Book)
    requires Evictions(a, b) && Evictions(b, c)
    ensures Evictions(a, c)
  {
  }

  /** What was retired since is not in use now. */
  ghost predicate Retiring(b: Book, b': Book, relay: Relay, u: Use) {
    && b.retired.Keys <= b'.retired.Keys
    && forall s :: s in b'.retired && s !in b.retired ==> s in relay.issued && !InUse(relay.issued[s], u)
  }

  lemma LaterTransitive(a: Relay, b: Relay, c: Relay)
    requires RelayLater(a, b) && RelayLater(b, c)
    ensures RelayLater(a, c)
  {
  }

  /** A name not in use. */
  method Unused(names: set<string>) returns (name: string)
    ensures name !in names
  {
    name := "";
    var left := names;
    while left != {}
      invariant left <= names && forall x :: x in names && x !in left ==> |x| < |name|
    {
      NonEmpty(left);
      var x :| x in left;
      left := left - {x};
      if |name| <= |x| { name := seq(|x| + 1, _ => 'a'); }
    }
  }

  class Manager {
    var hasNative: bool
    /** The relay of this build. */
    var relayOrigin: Option<string>
    var secure: bool
    var device: Option<RelayDevice>
    var state: State
    var relay: Relay
    var native: Native
    /** The devices a relay said it knows, in order. */
    ghost var heard: seq<DeviceKey>
    /** How many native calls failed. */
    ghost var nativeFaults: nat
    /** How many calls to register, update or subscribe a device, or to register a
        pusher, failed. */
    ghost var faults: nat
    /** How often a session, a token, the permission or the instance's key was not to be
        had. */
    ghost var denials: nat
    /** How many deletions on the relay failed, other than for an unknown device. */
    ghost var deleteFaults: nat
    /** The clock when it was last read. */
    ghost var time: int
    ghost var book: Book

    ghost predicate Valid()
      reads `device, `state, `relay, `native, `book
    {
      Sound(device, state, relay, native, book)
    }

    function CurrentUse(): Use
      reads `device, `relayOrigin
    {
      UseOf(device, relayOrigin)
    }

    /** What every task owes the subscriptions: what leaves the records is dropped,
        and what is given up is not in use as the task ends. */
    twostate predicate Accounts()
      reads `state, `relay, `book, `device, `relayOrigin
    {
      && RelayLater(old(relay), relay)
      && old(book.dropped) <= book.dropped
      && Ids(old(state.instances)) <= Ids(state.instances) + book.dropped
      && Retiring(old(book), book, relay, CurrentUse()) && Evictions(old(book), book)
    }

    /** Nothing done, nothing owed. */
    twostate lemma Idle()
      requires Valid() && state == old(state) && relay == old(relay) && book == old(book)
      ensures Accounts()
    {
    }

    /** Why notifications cannot work at all, if they cannot: the first that is missing. */
    function Availability(): (r: Option<Problem>)
      reads `hasNative, `relayOrigin, `secure
      ensures r.None? <==> hasNative && relayOrigin.Some? && secure
      ensures !hasNative ==> r == Some(Unsupported)
      ensures hasNative && relayOrigin.None? ==> r == Some(RelayNotBuilt)
      ensures hasNative && relayOrigin.Some? && !secure ==> r == Some(NoSecureStorage)
    {
      if !hasNative then Some(Unsupported)
      else if relayOrigin.None? then Some(RelayNotBuilt)
      else if !secure then Some(NoSecureStorage)
      else None
    }

    // --- Outside the app ---------------------------------------------------------------

    /** Relays forget devices and subscriptions, and keys get lost. */
    method Others()
      requires RelayOk(relay)
      modifies `relay, `native
      ensures Forgets(old(relay), relay) && NativeQuiet(old(native), native)
    {
    }

    method PostDevice(t: PushToken) returns (a: Answer<RelayDevice>)
      requires RelayOk(relay) && relayOrigin.Some?
      modifies `relay, `native, `faults
      ensures faults == old(faults) + if a.Ok? then 0 else 1
      ensures RelayLater(old(relay), relay) && relay.issued == old(relay.issued) && NativeQuiet(old(native), native)
      ensures a.Ok? ==>
        && a.value.origin == relayOrigin.value && a.value.platform == t.provider && a.value.HasToken(t)
        && a.value.Key() in relay.devices && a.value.Key() !in old(relay.devices)
    {
      Others();
      var ids := set k | k in relay.devices :: k.id;
      var id := Unused(ids);
      var environment := if t.provider.Apns? then t.environment else None;
      var d := RelayDevice(relayOrigin.value, id, t.provider, t.token, environment);
      assert d.Key() in relay.devices ==> d.Key().id in ids;
      a := Failed(OtherFault);
      if * {
        relay := relay.(known := relay.known + {d.Key()}, devices := relay.devices + {d.Key()});
        if * { a := Ok(d); }
      }
      if a.Failed? { faults := faults + 1; }
    }

    method PutDevice(d: RelayDevice, t: PushToken) returns (a: Answer<RelayDevice>)
      requires RelayOk(relay)
      modifies `relay, `native, `heard, `faults
      ensures faults == old(faults) + if a.Ok? then 0 else 1
      ensures Forgets(old(relay), relay) && NativeQuiet(old(native), native)
      ensures a.Ok? ==> d.platform == t.provider && a.value == d.WithToken(t) && d.Key() in relay.known
      ensures a == Failed(DeviceUnknown) ==> d.Key() !in relay.known
      ensures heard == old(heard) + if a.Ok? then [d.Key()] else []
    {
      Others();
      a := Failed(OtherFault);
      if d.platform == t.provider {
        if d.Key() !in relay.known {
          a := Failed(DeviceUnknown);
        } else if * {
          a := Ok(d.WithToken(t));
          heard := heard + [d.Key()];
        }
      }
      if a.Failed? { faults := faults + 1; }
    }

    method PostSubscription(d: RelayDevice, key: string) returns (a: Answer<Created>)
      requires RelayOk(relay)
      modifies `relay, `native, `faults
      ensures faults == old(faults) + if a.Ok? then 0 else 1
      ensures RelayLater(old(relay), relay) && relay.devices == old(relay.devices) && NativeQuiet(old(native), native)
      ensures a.Ok? ==>
        && a.value.subscription !in old(relay.issued)
        && a.value.subscription in relay.issued && relay.issued[a.value.subscription] == d.Key()
    {
      Others();
      a := Failed(OtherFault);
      if d.Key() !in relay.known {
        a := Failed(DeviceUnknown);
      } else if * {
        a := Failed(DeviceTokenInvalid);
      } else if * {
        var id := Unused(relay.issued.Keys);
        relay := relay.(subs := relay.subs[id := d.Key()], issued := relay.issued[id := d.Key()]);
        if * { a := Ok(Created(id, "/push/" + id)); }
      }
      if a.Failed? { faults := faults + 1; }
    }

    /** A subscription the relay does not have counts as deleted. */
    method DeleteSubscription(d: RelayDevice, id: string) returns (a: Answer<()>)
      requires RelayOk(relay)
      modifies `relay, `native, `deleteFaults
      ensures deleteFaults == old(deleteFaults) + if a.Ok? || a.fault.DeviceUnknown? then 0 else 1
      ensures Forgets(old(relay), relay) && NativeQuiet(old(native), native)
      ensures a.Ok? || a == Failed(DeviceUnknown) ==> id in relay.subs ==> relay.subs[id] != d.Key()
    {
      Others();
      a := Failed(OtherFault);
      if d.Key() !in relay.known {
        a := Failed(DeviceUnknown);
      } else if * {
        if id in relay.subs && relay.subs[id] == d.Key() {
          relay := relay.(subs := relay.subs - {id});
        }
        if * { a := Ok(()); }
      }
      if a.Failed? && !a.fault.DeviceUnknown? { deleteFaults := deleteFaults + 1; }
    }

    method CreateKeys(id: string) returns (ok: bool)
      modifies `native, `nativeFaults
      ensures native.keys <= old(native.keys) + {id} && old(native.lost) <= native.lost
      ensures old(native.keys) <= native.keys + native.lost
      ensures ok ==> id in native.keys || id in native.lost
      ensures nativeFaults == old(nativeFaults) + if ok then 0 else 1
    {
      var made: bool;
      ok := *;
      made := *;
      if ok || made { native := native.(keys := native.keys + {id}); }
      if !ok { nativeFaults := nativeFaults + 1; }
    }

    method DeleteKeys(id: string)
      modifies `native, `nativeFaults
      ensures native.keys <= old(native.keys) && old(native.lost) <= native.lost
      ensures old(native.keys) <= native.keys + native.lost + {id}
      ensures nativeFaults >= old(nativeFaults)
      ensures nativeFaults == old(nativeFaults) ==> id !in native.keys
    {
      if * { native := native.(keys := native.keys - {id}); }
      if id in native.keys { nativeFaults := nativeFaults + 1; }
    }

    method ListKeys() returns (l: Option<seq<string>>)
      modifies `native, `nativeFaults
      ensures NativeQuiet(old(native), native)
      ensures l.Some? ==> forall id :: id in l.value <==> id in native.keys
      ensures nativeFaults == old(nativeFaults) + if l.Some? then 0 else 1
    {
      if * {
        var ids := Listed(native.keys);
        l := Some(ids);
      } else {
        l := None;
        nativeFaults := nativeFaults + 1;
      }
    }

    method CurrentToken() returns (t: Option<PushToken>)
      modifies `denials
      ensures denials == old(denials) + if t.Some? then 0 else 1
    {
      if * {
        var token: PushToken := *;
        t := Some(token);
      } else {
        t := None;
        denials := denials + 1;
      }
    }

    method Now() returns (at: int)
      modifies `time
      ensures at == time
    {
      at := *;
      time := at;
    }

    // --- The relay device ----------------------------------------------------------------

    /** Registers a new device: every record is stale from now on, and nothing is
        queued; on a failure nothing changed. */
    method RegisterDevice(t: PushToken) returns (a: Answer<RelayDevice>)
      requires Valid() && relayOrigin.Some?
      modifies `device, `state, `relay, `native, `book, `time, `faults
      ensures Valid() && RelayLater(old(relay), relay) && relay.issued == old(relay.issued)
      ensures faults == old(faults) + if a.Ok? then 0 else 1
      ensures NativeQuiet(old(native), native)
      ensures a.Failed? ==> device == old(device) && state == old(state) && book == old(book)
      ensures a.Ok? ==>
        && device == Some(a.value) && a.value.origin == relayOrigin.value && a.value.platform == t.provider
        && CurrentDevice(t) && state.touchedAt == Some(time)
        && a.value.Key() !in old(relay.devices)
        && Renewed(old(state), state) && NoneDropped(old(book), book, old(state.pending))
        && Retiring(old(book), book, relay, CurrentUse())
    {
      a := PostDevice(t);
      SoundLater(device, state, old(relay), old(native), book, relay, native);
      if a.Ok? {
        var at := Now();
        SoundRegistered(device, state, relay, native, book, a.value, at);
        device := Some(a.value);
        book := book.(retired := Retire(book.retired, state.pending, CurrentUse()), queues := book.queues + [[]]);
        state := state.(instances := AllStale(state.instances), pending := [], touchedAt := Some(at));
      }
    }

    /** The saved device is of this relay and the token's provider. */
    ghost predicate Usable(t: PushToken)
      reads `device, `relayOrigin
    {
      device.Some? && Some(device.value.origin) == relayOrigin && device.value.platform == t.provider
    }

    /** And it has this token. */
    ghost predicate CurrentDevice(t: PushToken)
      reads `device, `relayOrigin
    {
      && Usable(t)
      && device.value.token == t.token && (t.provider.Apns? ==> device.value.environment == t.environment)
    }

    /** The relay has this token, and heard of the device within seven days. */
    twostate predicate Ensured(new t: PushToken)
      reads `device, `relayOrigin, `heard, `time
    {
      && CurrentDevice(t)
      && (|| device.value.Key() !in old(relay.devices)
          || heard == old(heard) + [device.value.Key()]
          || time - (if old(state).touchedAt.Some? then old(state).touchedAt.value else 0) < 604_800_000)
    }

    /** No relay was asked for anything, and none forgot anything meanwhile. */
    twostate predicate Unasked()
      reads `device, `state, `relay, `heard
    {
      device == old(device) && state == old(state) && relay == old(relay) && heard == old(heard)
    }

    /** The device for this token: registered when there is none for this relay or the
        relay does not know it, its token kept current, and touched every seven days. */
    method EnsureDevice(t: PushToken)
      returns (a: Answer<RelayDevice>, ghost read: int, ghost told: Option<Answer<RelayDevice>>)
      requires Valid() && relayOrigin.Some?
      modifies `device, `state, `relay, `native, `heard, `book, `time, `faults
      ensures Valid() && RelayLater(old(relay), relay) && relay.issued == old(relay.issued)
      ensures NativeQuiet(old(native), native)
      ensures a.Failed? ==> device == old(device) && state == old(state) && book == old(book)
      ensures a.Ok? ==> device == Some(a.value) && Ensured(t)
      ensures old(faults) <= faults && (a.Failed? ==> faults > old(faults))
      ensures faults == old(faults) && old(Usable(t)) ==> device.value.Key() == old(device).value.Key()
      ensures
        var touchedAt := if old(state).touchedAt.Some? then old(state).touchedAt.value else 0;
        told.Some? <==> old(Usable(t)) && !(old(CurrentDevice(t)) && read - touchedAt < 604_800_000)
      ensures told.Some? ==> if told.value == Failed(DeviceUnknown) then a.Ok? || faults >= old(faults) + 2
                             else a == told.value
      ensures
        var touchedAt := if old(state).touchedAt.Some? then old(state).touchedAt.value else 0;
        old(CurrentDevice(t)) && read - touchedAt < 604_800_000 ==> Unasked()
      ensures DeviceWork(old(state), state) && NoneDropped(old(book), book, old(state.pending))
      ensures Retiring(old(book), book, relay, CurrentUse())
    {
      read, told := 0, None;
      if device.None? || device.value.origin != relayOrigin.value || device.value.platform != t.provider {
        a := RegisterDevice(t);
      } else {
        var d := device.value;
        var at := Now();
        read := at;
        var touchedAt := if state.touchedAt.Some? then state.touchedAt.value else 0;
        if d.HasToken(t) && at - touchedAt < DEVICE_TOUCH_INTERVAL_MS {
          a := Ok(d);
        } else {
          a := Touch(d, t);
          told := Some(a);
          if a == Failed(DeviceUnknown) {
            label before:
            a := RegisterDevice(t);
            LaterTransitive(old(relay), old@before(relay), relay);
          }
        }
      }
    }

    /** The relay is told the token and confirms the device; else nothing changed. */
    method Touch(d: RelayDevice, t: PushToken) returns (a: Answer<RelayDevice>)
      requires Valid() && device == Some(d)
      modifies `device, `state, `relay, `native, `heard, `time, `faults
      ensures Valid() && Forgets(old(relay), relay) && NativeQuiet(old(native), native)
      ensures a.Ok? ==>
        && d.platform == t.provider && device == Some(a.value) && a.value == d.WithToken(t) && d.Key() in relay.known
        && a.value.token == t.token && (t.provider.Apns? ==> a.value.environment == t.environment)
        && state == old(state).(touchedAt := Some(time))
      ensures a.Failed? ==> device == old(device) && state == old(state)
      ensures a == Failed(DeviceUnknown) ==> d.Key() !in relay.known
      ensures heard == old(heard) + if a.Ok? then [d.Key()] else []
      ensures faults == old(faults) + if a.Ok? then 0 else 1
    {
      a := PutDevice(d, t);
      SoundLater(device, state, old(relay), old(native), book, relay, native);
      if a.Ok? {
        var at := Now();
        SoundTouched(device, Some(a.value), state, state.(touchedAt := Some(at)), relay, native, book);
        device := Some(a.value);
        state := state.(touchedAt := Some(at));
      }
    }

    // --- Subscriptions -----------------------------------------------------------------------

    /** A relay subscription of the saved device. `first` is the answer to the first
        request for one: a device that the relay forgot is registered, and one whose
        token it refused updated, before the only other request. */
    method Obtain(t: PushToken, instanceKey: string)
      returns (a: Answer<Created>, ghost first: Option<Answer<Created>>)
      requires Valid() && relayOrigin.Some?
      modifies `device, `state, `relay, `native, `heard, `book, `time, `faults
      ensures Valid() && RelayLater(old(relay), relay) && NativeQuiet(old(native), native)
      ensures DeviceWork(old(state), state) && NoneDropped(old(book), book, old(state.pending))
      ensures Retiring(old(book), book, relay, CurrentUse())
      ensures old(faults) <= faults && (a.Failed? ==> faults > old(faults))
      ensures first.None? ==> a.Failed?
      ensures first.Some? && (first.value.Ok? || first.value.fault.OtherFault?) ==> a == first.value
      ensures first.Some? && first.value.Failed? && !first.value.fault.OtherFault? && a.Failed? ==>
        faults >= old(faults) + 2
      ensures a.Ok? ==>
        && CurrentDevice(t)
        && a.value.subscription !in old(relay.issued)
        && a.value.subscription in relay.issued && relay.issued[a.value.subscription] == device.value.Key()
    {
      first := None;
      var ensured;
      ghost var read, told;
      ensured, read, told := EnsureDevice(t);
      if ensured.Failed? {
        a := Failed(ensured.fault);
      } else {
        label ready:
        a, first := Create(ensured.value, t, instanceKey);
        LaterTransitive(old(relay), old@ready(relay), relay);
        DeviceWorkTransitive(old(state), old@ready(state), state);
      }
    }

    method Create(d: RelayDevice, t: PushToken, instanceKey: string)
      returns (a: Answer<Created>, ghost first: Option<Answer<Created>>)
      requires Valid() && relayOrigin.Some? && device == Some(d) && CurrentDevice(t)
      modifies `device, `state, `relay, `native, `heard, `book, `time, `faults
      ensures Valid() && RelayLater(old(relay), relay) && NativeQuiet(old(native), native)
      ensures DeviceWork(old(state), state) && NoneDropped(old(book), book, old(state.pending))
      ensures Retiring(old(book), book, relay, CurrentUse()) && NewOrSame()
      ensures old(faults) <= faults && (a.Failed? ==> faults > old(faults)) && first.Some?
      ensures first.value.Ok? || first.value.fault.OtherFault? ==> a == first.value
      ensures first.value.Failed? && !first.value.fault.OtherFault? && a.Failed? ==> faults >= old(faults) + 2
      ensures a.Ok? ==>
        && CurrentDevice(t)
        && a.value.subscription !in old(relay.issued)
        && a.value.subscription in relay.issued && relay.issued[a.value.subscription] == device.value.Key()
    {
      a := CreateOn(d, instanceKey);
      first := Some(a);
      if a.Failed? && !a.fault.OtherFault? {
        label refused:
        a := ObtainAgain(d, t, instanceKey, a.fault);
        LaterTransitive(old(relay), old@refused(relay), relay);
      }
    }

    /** The saved device is the one before or newly registered. */
    twostate predicate NewOrSame()
      reads `device
    {
      && device.Some? && old(device).Some?
      && (device.value.Key() == old(device).value.Key() || device.value.Key() !in old(relay).devices)
    }

    /** The second request, after what the relay demanded. */
    method ObtainAgain(d: RelayDevice, t: PushToken, instanceKey: string, demand: RelayFault)
      returns (a: Answer<Created>)
      requires Valid() && relayOrigin.Some? && device == Some(d) && CurrentDevice(t) && !demand.OtherFault?
      modifies `device, `state, `relay, `native, `heard, `book, `time, `faults
      ensures Valid() && RelayLater(old(relay), relay) && NativeQuiet(old(native), native)
      ensures DeviceWork(old(state), state) && NoneDropped(old(book), book, old(state.pending))
      ensures Retiring(old(book), book, relay, CurrentUse()) && NewOrSame()
      ensures old(faults) <= faults && (a.Failed? ==> faults > old(faults))
      ensures a.Ok? ==>
        && CurrentDevice(t)
        && (if demand.DeviceUnknown? then device.value.Key() !in old(relay.devices)
            else heard == old(heard) + [device.value.Key()])
        && a.value.subscription !in old(relay.issued)
        && a.value.subscription in relay.issued && relay.issued[a.value.subscription] == device.value.Key()
    {
      var again;
      if demand.DeviceUnknown? {
        again := RegisterDevice(t);
      } else {
        again := PutDevice(d, t);
        SoundLater(device, state, old(relay), old(native), book, relay, native);
        if again.Ok? {
          SoundTouched(device, Some(again.value), state, state, relay, native, book);
          device := Some(again.value);
        }
      }
      if again.Failed? {
        a := Failed(again.fault);
      } else {
        label ready:
        a := CreateOn(again.value, instanceKey);
        LaterTransitive(old(relay), old@ready(relay), relay);
      }
    }

    method CreateOn(d: RelayDevice, instanceKey: string) returns (a: Answer<Created>)
      requires Valid()
      modifies `relay, `native, `faults
      ensures Valid() && RelayLater(old(relay), relay) && NativeQuiet(old(native), native)
      ensures faults == old(faults) + if a.Ok? then 0 else 1
      ensures a.Ok? ==>
        && a.value.subscription !in old(relay.issued)
        && a.value.subscription in relay.issued && relay.issued[a.value.subscription] == d.Key()
    {
      a := PostSubscription(d, instanceKey);
      SoundLater(device, state, old(relay), old(native), book, relay, native);
    }

    /** A relay subscription, its native keys and the instance's pusher; on a
        failure what was made is undone, and no record is lost. `made` is what the relay
        created and `pushed` the instance's answer, if it came to that. */
    method Subscribe(identity: string, instanceKey: string, t: PushToken)
      returns (r: Result<Record>, ghost made: Option<Created>, ghost pushed: Option<Result<string>>)
      requires Valid() && relayOrigin.Some?
      modifies `device, `state, `relay, `native, `nativeFaults, `heard, `book, `time, `faults, `deleteFaults
      ensures old(native.lost) <= native.lost
      ensures Valid() && RelayLater(old(relay), relay)
      ensures DeviceWork(old(state), state) && NoneDropped(old(book), book, old(state.pending))
      ensures Retiring(old(book), book, relay, CurrentUse())
      ensures old(faults) <= faults && old(nativeFaults) <= nativeFaults && old(deleteFaults) <= deleteFaults
      ensures r.Failure? ==> faults > old(faults) || nativeFaults > old(nativeFaults)
      ensures made.None? ==> r == Failure(RelayFailed)
      ensures made.Some? ==>
        && made.value.subscription !in old(relay.issued)
        && match pushed
           case None => r == Failure(PushUnavailable) && nativeFaults > old(nativeFaults)
           case Some(Failure(problem)) => r == Failure(problem)
           case Some(Success(id)) =>
             r == Success(Record(identity, made.value.subscription, made.value.endpoint, relayOrigin.value, instanceKey,
                                 id, false))
      ensures made.Some? && r.Failure? ==>
        && (made.value.subscription in relay.subs ==> deleteFaults > old(deleteFaults))
        && (made.value.subscription in native.keys ==> nativeFaults > old(nativeFaults))
      ensures r.Success? ==> RecordOk(r.value, device, relay, native) && CurrentDevice(t)
    {
      made, pushed := None, None;
      var created;
      ghost var first;
      created, first := Obtain(t, instanceKey);
      if created.Failed? {
        r := Failure(RelayFailed);
      } else {
        made := Some(created.value);
        label obtained:
        r, pushed := Equip(identity, instanceKey, created.value);
        LaterTransitive(old(relay), old@obtained(relay), relay);
      }
    }

    /** Keys and a pusher for a subscription just made, or neither and the subscription
        deleted. */
    method Equip(identity: string, instanceKey: string, created: Created)
      returns (r: Result<Record>, ghost pushed: Option<Result<string>>)
      requires Valid() && relayOrigin.Some? && device.Some? && device.value.origin == relayOrigin.value
      requires forall x :: x in state.instances ==> x.subscription != created.subscription
      requires created.subscription in relay.issued && relay.issued[created.subscription] == device.value.Key()
      modifies `relay, `native, `nativeFaults, `faults, `deleteFaults
      ensures old(native.lost) <= native.lost
      ensures Valid() && Forgets(old(relay), relay)
      ensures old(faults) <= faults && old(nativeFaults) <= nativeFaults && old(deleteFaults) <= deleteFaults
      ensures r.Failure? ==> faults > old(faults) || nativeFaults > old(nativeFaults)
      ensures match pushed
              case None => r == Failure(PushUnavailable) && nativeFaults > old(nativeFaults)
              case Some(Failure(problem)) => r == Failure(problem)
              case Some(Success(id)) =>
                r == Success(Record(identity, created.subscription, created.endpoint, relayOrigin.value, instanceKey,
                                    id, false))
      ensures r.Failure? ==>
        && (created.subscription in relay.subs ==> deleteFaults > old(deleteFaults))
        && (created.subscription in native.keys ==> nativeFaults > old(nativeFaults))
      ensures r.Success? ==> RecordOk(r.value, device, relay, native)
    {
      var id := created.subscription;
      pushed := None;
      var keyed := CreateKeys(id);
      SoundLater(device, state, relay, old(native), book, relay, native);
      if !keyed {
        r := Failure(PushUnavailable);
      } else {
        var pusher := RegisterPusher();
        pushed := Some(pusher);
        if pusher.Success? {
          r := Success(Record(identity, id, created.endpoint, relayOrigin.value, instanceKey, pusher.value, false));
        } else {
          label keyed:
          r := Failure(pusher.problem);
          DeleteKeys(id);
          UnrecordedKeys(device, state, relay, old@keyed(native), native, book, id);
        }
      }
      if r.Failure? {
        label undo:
        var undone := DeleteSubscription(device.value, id);
        SoundLater(device, state, old@undo(relay), old@undo(native), book, relay, native);
      }
    }

    method RegisterPusher() returns (r: Result<string>)
      modifies `faults
      ensures faults == old(faults) + if r.Success? then 0 else 1
    {
      if * {
        var id: string := *;
        r := Success(id);
      } else {
        var problem: Problem := *;
        r := Failure(problem);
        faults := faults + 1;
      }
    }

    /** Deletes the subscription where it can be in use: it is gone then, the deletion
        failed, or it is not in use. */
    method DeleteOnRelay(p: Removal, stale: bool) returns (failed: bool, ghost gone: bool)
      requires Valid() && relayOrigin.Some? && Issued(p.subscription, p.origin, relay)
      requires stale ==> !InUse(relay.issued[p.subscription], CurrentUse())
      modifies `relay, `native, `deleteFaults
      ensures deleteFaults == old(deleteFaults) + if failed then 1 else 0
      ensures failed ==> !stale && Some(p.origin) == relayOrigin && device.Some? && device.value.origin == p.origin
      ensures Valid() && Forgets(old(relay), relay) && NativeQuiet(old(native), native)
      ensures !(gone && failed) && (gone ==> p.subscription !in relay.subs)
      ensures !gone && !failed ==> !InUse(relay.issued[p.subscription], CurrentUse())
    {
      failed, gone := false, false;
      if !stale && device.Some? && device.value.origin == p.origin && Some(p.origin) == relayOrigin {
        var deleted := DeleteSubscription(device.value, p.subscription);
        SoundLater(device, state, old(relay), old(native), book, relay, native);
        failed := deleted.Failed? && deleted.fault != DeviceUnknown;
        gone := !failed && relay.issued[p.subscription] == device.value.Key();
      }
    }

    /** What is evicted once one more removal is queued. */
    ghost function NewlyEvicting(): map<string, nat>
      requires book.queues != []
      reads `book, `state
    {
      Evicting(book.evicted, state.pending, |book.queues| - 1)
    }

    /** Removes one subscription wherever it can be: afterwards it is not recorded,
        and gone from its relay, queued, or of a device or relay not in use. */
    method RemoveSubscription(rec: Record)
      requires Valid() && relayOrigin.Some? && Issued(rec.subscription, rec.origin, relay)
      requires rec.subscription !in book.dropped
      requires rec.stale ==> !(device.Some? && device.value.Key() == relay.issued[rec.subscription])
      modifies `state, `relay, `native, `nativeFaults, `book, `deleteFaults
      ensures old(native.lost) <= native.lost
      ensures Valid() && Forgets(old(relay), relay)
      ensures state ==
        old(state).(instances := Without(old(state.instances), rec.subscription), pending := state.pending)
      ensures
        || rec.subscription !in relay.subs
        || Queued(rec.subscription, state.pending)
        || !InUse(relay.issued[rec.subscription], CurrentUse())
      ensures old(deleteFaults) <= deleteFaults
      ensures state.pending ==
        if deleteFaults == old(deleteFaults) then old(state.pending)
        else Enqueued(old(state.pending), Removal(rec.origin, rec.subscription))
      ensures book.dropped == old(book.dropped) + {rec.subscription} && Accounts()
      ensures book.evicted == if deleteFaults == old(deleteFaults) then old(book.evicted) else old(NewlyEvicting())
      ensures native.keys <= old(native.keys) && nativeFaults >= old(nativeFaults)
      ensures old(native.keys) + old(native.lost) <= native.keys + native.lost + {rec.subscription}
      ensures nativeFaults == old(nativeFaults) ==> rec.subscription !in native.keys
    {
      var p := Removal(rec.origin, rec.subscription);
      var pending;
      ghost var gone;
      pending, gone := DeleteOnRelay(p, rec.stale);
      label deleted:
      Drop(p, pending, gone);
      LaterTransitive(old(relay), old@deleted(relay), relay);
    }

    /** The keys and the record go; a deletion that failed is queued. */
    method Drop(p: Removal, pending: bool, ghost gone: bool)
      requires Valid() && Issued(p.subscription, p.origin, relay) && p.subscription !in book.dropped
      requires !(gone && pending) && (gone ==> p.subscription !in relay.subs)
      requires !gone && !pending ==> !InUse(relay.issued[p.subscription], CurrentUse())
      modifies `state, `native, `nativeFaults, `book
      ensures old(native.lost) <= native.lost
      ensures Valid() && Accounts()
      ensures state ==
        old(state).(instances := Without(old(state.instances), p.subscription), pending := state.pending)
      ensures state.pending == if pending then Enqueued(old(state.pending), p) else old(state.pending)
      ensures pending ==> Queued(p.subscription, state.pending)
      ensures book.dropped == old(book.dropped) + {p.subscription}
      ensures book.evicted == if pending then old(NewlyEvicting()) else old(book.evicted)
      ensures native.keys <= old(native.keys) && nativeFaults >= old(nativeFaults)
      ensures old(native.keys) + old(native.lost) <= native.keys + native.lost + {p.subscription}
      ensures nativeFaults == old(nativeFaults) ==> p.subscription !in native.keys
    {
      DeleteKeys(p.subscription);
      SoundDropped(device, state, relay, old(native), native, book, p, pending, gone, CurrentUse());
      if pending { EnqueuedKeepsNewest(state.pending, p); }
      book := DroppedBook(book, state.pending, p, pending, gone, CurrentUse());
      state := state.(instances := Without(state.instances, p.subscription),
                      pending := if pending then Enqueued(state.pending, p) else state.pending);
    }

    method FindRecord(identity: string) returns (r: Option<Record>)
      ensures r.Some? ==> r.value in state.instances && r.value.identity == identity
      ensures r.Some? <==> Recorded(state.instances, identity)
    {
      r := None;
      for i := 0 to |state.instances|
        invariant r.None? && forall j :: 0 <= j < i ==> state.instances[j].identity != identity
      {
        if state.instances[i].identity == identity { return Some(state.instances[i]); }
      }
    }

    /** The same account with a usable access token, if it can be had. */
    method FreshSession(identity: string) returns (ok: bool)
      modifies `denials
      ensures denials == old(denials) + if ok then 0 else 1
    {
      ok := *;
      if !ok { denials := denials + 1; }
    }

    method PusherConfig() returns (c: Option<Config>)
      modifies `denials
      ensures denials == old(denials) + if c.Some? && c.value.key.Some? then 0 else 1
    {
      c := *;
      denials := denials + if c.Some? && c.value.key.Some? then 0 else 1;
    }

    method InstanceKeyFor() returns (r: Result<string>, ghost config: Option<Config>)
      modifies `denials
      ensures denials == old(denials) + if config.Some? && config.value.key.Some? then 0 else 1
      ensures config.None? ==> r == Failure(CredentialNotAccountWide) || r == Failure(InstanceFailed)
      ensures config.Some? ==>
        r == if config.value.key.Some? then Success(config.value.key.value) else Failure(config.value.reason)
    {
      var config' := PusherConfig();
      config := config';
      if config'.None? {
        if * { r := Failure(CredentialNotAccountWide); } else { r := Failure(InstanceFailed); }
      } else if config'.value.key.None? {
        r := Failure(config'.value.reason);
      } else {
        r := Success(config'.value.key.value);
      }
    }

    method Permitted() returns (granted: bool)
      modifies `denials
      ensures denials == old(denials) + if granted then 0 else 1
    {
      granted := *;
      if !granted { denials := denials + 1; }
    }

    /** A fresh record takes the place of the account's previous one. */
    method Replace(previous: Option<Record>, rec: Record)
      requires Valid() && relayOrigin.Some?
      requires RecordOk(rec, device, relay, native) && !rec.stale && Fresh(rec.subscription, state, book)
      requires previous.None? ==> forall x :: x in state.instances ==> x.identity != rec.identity
      requires previous.Some? ==>
        && Issued(previous.value.subscription, previous.value.origin, relay)
        && previous.value.subscription !in book.dropped + {rec.subscription}
        && (previous.value.stale ==> !(device.Some? && device.value.Key() == relay.issued[previous.value.subscription]))
        && forall x :: x in state.instances ==>
          (x.identity == rec.identity <==> x.subscription == previous.value.subscription)
      modifies `state, `relay, `native, `nativeFaults, `book, `deleteFaults
      ensures old(native.lost) <= native.lost
      ensures Valid() && Forgets(old(relay), relay) && RecordOk(rec, device, relay, native)
      ensures state == old(state).(instances := Except(old(state.instances), rec.identity) + [rec],
                                   pending := state.pending)
      ensures Accounts() && nativeFaults >= old(nativeFaults)
    {
      ghost var l := state.instances;
      if previous.Some? {
        WithoutIsExcept(l, previous.value.subscription, rec.identity);
        RemoveSubscription(previous.value);
        StillOk(rec, device, old(relay), relay, old(native), native, previous.value.subscription);
        assert state.instances == Except(l, rec.identity);
      } else {
        ExceptNone(l, rec.identity);
      }
      SoundRecorded(device, state, relay, native, book, rec);
      state := state.(instances := Except(state.instances, rec.identity) + [rec]);
    }

    /** A new subscription takes the place of the account's previous one. */
    method Renew(identity: string, previous: Option<Record>, instanceKey: string, t: PushToken)
      returns (r: Result<Record>)
      requires Valid() && relayOrigin.Some?
      requires previous.Some? ==> previous.value in state.instances && previous.value.identity == identity
      requires previous.None? ==> forall x :: x in state.instances ==> x.identity != identity
      modifies `device, `state, `relay, `native, `nativeFaults, `heard, `book, `time, `faults, `deleteFaults
      ensures old(native.lost) <= native.lost
      ensures Valid() && Accounts()
      ensures r.Failure? ==> DeviceWork(old(state), state) && NoneDropped(old(book), book, old(state.pending))
      ensures old(faults) <= faults && old(nativeFaults) <= nativeFaults
      ensures r.Failure? ==> faults > old(faults) || nativeFaults > old(nativeFaults)
      ensures r.Success? ==>
        && CurrentDevice(t) && Live(r.value, identity)
        && r.value.instanceKey == instanceKey && r.value.subscription !in old(relay.issued)
        && Replaced(old(state.instances), state.instances, r.value) && state.prompted == old(state.prompted)
    {
      ghost var made, pushed;
      r, made, pushed := Subscribe(identity, instanceKey, t);
      if r.Success? {
        label subscribed:
        var rec := r.value;
        if previous.Some? {
          PreviousIsThere(old(state), state, previous.value);
          assert RecordOk(previous.value, old(device), old(relay), old(native));
        }
        FreshRecord(old(device), old(state), old(relay), old(native), old(book), state, book, rec.subscription);
        Replace(previous, rec);
        LaterTransitive(old(relay), old@subscribed(relay), relay);
      }
    }

    // --- Tasks, one at a time -------------------------------------------------------------------

    /** Turning on leaves exactly one record for the account, live and with the
        instance's key; a failure keeps every record, at most stale. It fails only when
        it is not possible (`ready`) or one of its calls fails. */
    method Enable(identity: string) returns (r: Result<Record>, ghost ready: Result<(string, PushToken)>)
      requires Valid()
      modifies `device, `state, `relay, `native, `nativeFaults, `heard, `book, `time, `faults, `deleteFaults, `denials
      ensures Valid() && Accounts()
      ensures Availability().Some? ==> ready == Failure(Availability().value)
      ensures ready.Failure? ==> r == Failure(ready.problem) && state == old(state) && relay == old(relay)
      ensures ready.Failure? && Availability().None? ==> denials > old(denials)
      ensures ready.Success? && r.Failure? ==> faults > old(faults) || nativeFaults > old(nativeFaults)
      ensures r.Failure? ==> DeviceWork(old(state), state) && NoneDropped(old(book), book, old(state.pending))
      ensures r.Success? ==>
        && Live(r.value, identity) && Replaced(old(state.instances), state.instances, r.value)
        && r.value.instanceKey == ready.value.0 && CurrentDevice(ready.value.1)
        && state.prompted == RememberPrompt(old(state.prompted), identity)
    {
      var wanted;
      ghost var granted, current, config, t;
      wanted, granted, current, config, t := Prepare(identity);
      ready := wanted;
      if wanted.Failure? {
        r := Failure(wanted.problem);
      } else {
        r := TurnOn(identity, wanted.value.0, wanted.value.1);
      }
    }

    method TurnOn(identity: string, key: string, t: PushToken) returns (r: Result<Record>)
      requires Valid() && relayOrigin.Some?
      modifies `device, `state, `relay, `native, `nativeFaults, `heard, `book, `time, `faults, `deleteFaults
      ensures Valid() && Accounts()
      ensures r.Failure? ==> faults > old(faults) || nativeFaults > old(nativeFaults)
      ensures r.Failure? ==> DeviceWork(old(state), state) && NoneDropped(old(book), book, old(state.pending))
      ensures r.Success? ==>
        && Live(r.value, identity) && Replaced(old(state.instances), state.instances, r.value)
        && r.value.instanceKey == key && CurrentDevice(t)
        && state.prompted == RememberPrompt(old(state.prompted), identity)
    {
      var previous := FindRecord(identity);
      r := Renew(identity, previous, key, t);
      if r.Success? { MarkPrompted(identity); }
    }

    /** Once marked, an account is not asked again while it is among the last 64. */
    method MarkPrompted(identity: string)
      requires Valid()
      modifies `state
      ensures Valid() && state == old(state).(prompted := RememberPrompt(old(state.prompted), identity))
    {
      state := state.(prompted := RememberPrompt(state.prompted, identity));
    }

    /** What has to be had before anything is turned on: permission, a session, the
        instance's key and a push token. The first that cannot be had is the problem. */
    method Prepare(identity: string)
      returns (r: Result<(string, PushToken)>, ghost granted: bool, ghost current: bool,
               ghost config: Option<Config>, ghost t: Option<PushToken>)
      modifies `denials
      ensures denials == old(denials) + if r.Success? || Availability().Some? then 0 else 1
      ensures r.Success? <==>
        && Availability().None? && granted && current && config.Some? && config.value.key.Some? && t.Some?
      ensures r.Success? ==> r.value == (config.value.key.value, t.value)
      ensures Availability().Some? ==> r == Failure(Availability().value)
      ensures Availability().None? && !granted ==> r == Failure(PermissionDenied)
      ensures Availability().None? && granted && !current ==> r == Failure(SessionFailed)
      ensures Availability().None? && granted && current && config.None? ==>
          r == Failure(CredentialNotAccountWide) || r == Failure(InstanceFailed)
      ensures Availability().None? && granted && current && config.Some? && config.value.key.None? ==>
          r == Failure(config.value.reason)
      ensures Availability().None? && granted && current && config.Some? && config.value.key.Some? && t.None? ==>
          r == Failure(PushUnavailable)
    {
      granted, current, config, t := false, false, None, None;
      var problem := Availability();
      if problem.Some? {
        r := Failure(problem.value);
      } else {
        var permitted := Permitted();
        granted := permitted;
        if !permitted {
          r := Failure(PermissionDenied);
        } else {
          var usable := FreshSession(identity);
          current := usable;
          if !usable {
            r := Failure(SessionFailed);
          } else {
            r, config, t := PrepareKey();
          }
        }
      }
    }

    method PrepareKey()
      returns (r: Result<(string, PushToken)>, ghost config: Option<Config>, ghost t: Option<PushToken>)
      modifies `denials
      ensures denials == old(denials) + if r.Success? then 0 else 1
      ensures config.None? ==> r == Failure(CredentialNotAccountWide) || r == Failure(InstanceFailed)
      ensures config.Some? ==>
        r == if config.value.key.None? then Failure(config.value.reason)
             else if t.None? then Failure(PushUnavailable) else Success((config.value.key.value, t.value))
    {
      t := None;
      var key;
      key, config := InstanceKeyFor();
      if key.Failure? {
        r := Failure(key.problem);
      } else {
        var token := CurrentToken();
        t := token;
        r := if token.None? then Failure(PushUnavailable) else Success((key.value, token.value));
      }
    }

    /** The keys of the account's former record are gone unless a native call failed. */
    twostate predicate KeysGone(identity: string)
      reads `nativeFaults, `native
    {
      nativeFaults == old(nativeFaults) ==>
        forall x :: x in old(state).instances && x.identity == identity ==> x.subscription !in native.keys
    }

    /** Turning off leaves no record of the account. */
    method Disable(identity: string) returns (problem: Option<Problem>)
      requires Valid()
      modifies `state, `relay, `native, `nativeFaults, `book, `deleteFaults
      ensures Valid() && Accounts()
      ensures problem == if Recorded(old(state.instances), identity) then Availability() else None
      ensures problem.Some? ==> state == old(state) && book == old(book)
      ensures problem.None? ==>
        && state == old(state).(instances := Except(old(state.instances), identity), pending := state.pending)
        && KeysGone(identity)
    {
      problem := None;
      var current := FindRecord(identity);
      if current.None? {
        ExceptNone(state.instances, identity);
      } else {
        problem := Availability();
        if problem.None? { RemoveRecord(current.value); }
      }
    }

    /** Removes a record as it is stored. */
    method RemoveRecord(rec: Record)
      requires Valid() && relayOrigin.Some? && rec in state.instances
      modifies `state, `relay, `native, `nativeFaults, `book, `deleteFaults
      ensures Valid() && Accounts() && Forgets(old(relay), relay)
      ensures state == old(state).(instances := Except(old(state.instances), rec.identity), pending := state.pending)
      ensures
        || rec.subscription !in relay.subs
        || Queued(rec.subscription, state.pending)
        || !InUse(relay.issued[rec.subscription], CurrentUse())
      ensures nativeFaults >= old(nativeFaults) && deleteFaults >= old(deleteFaults) && KeysGone(rec.identity)
    {
      assert RecordOk(rec, device, relay, native);
      PreviousIsThere(state, state, rec);
      WithoutIsExcept(state.instances, rec.subscription, rec.identity);
      RemoveSubscription(rec);
    }

    /** Whether the relay still knows this device. `told` is its answer to the token
        `t`, if it was asked. */
    method ProbeDevice() returns (r: Probe, ghost t: Option<PushToken>, ghost told: Option<Answer<RelayDevice>>)
      requires Valid() && relayOrigin.Some?
      modifies `device, `state, `relay, `native, `heard, `time, `faults, `denials
      ensures Valid() && Forgets(old(relay), relay)
      ensures state == old(state).(touchedAt := state.touchedAt)
      ensures !r.Alive? ==> device == old(device) && state == old(state) && heard == old(heard)
      ensures r.Alive? ==>
        && device.Some? && old(device).Some? && device.value.Key() == old(device).value.Key()
        && device.value.origin == relayOrigin.value && heard == old(heard) + [device.value.Key()]
        && state.touchedAt == Some(time)
      ensures told.Some? <==> t.Some? && old(Usable(t.value))
      ensures r.Unknown? <==>
        t.None? || (told.Some? && told.value.Failed? && !told.value.fault.DeviceUnknown?)
      ensures r.Alive? <==> told.Some? && told.value.Ok?
      ensures denials == old(denials) + if t.Some? then 0 else 1
      ensures faults == old(faults) + if told.None? || told.value.Ok? then 0 else 1
      ensures told == Some(Failed(DeviceUnknown)) ==> device.value.Key() !in relay.known
    {
      var token := CurrentToken();
      t, told := token, None;
      if token.None? {
        r := Unknown;
      } else if device.None? || device.value.origin != relayOrigin.value
              || device.value.platform != token.value.provider {
        r := Forgotten;
      } else {
        var a := Touch(device.value, token.value);
        told := Some(a);
        r := if a.Ok? then Alive else if a.fault.DeviceUnknown? then Forgotten else Unknown;
      }
    }

    /** What a check of the account found and did, with all it learned on the way. */
    method Check(identity: string) returns (r: CheckResult, ghost seen: Findings)
      requires Valid()
      modifies `device, `state, `relay, `native, `nativeFaults, `heard, `book, `time, `faults, `deleteFaults, `denials
      ensures Valid() && Accounts()
      ensures seen.record.Some? ==> seen.record.value in old(state.instances) && seen.record.value.identity == identity
      ensures r.Off? <==> !Recorded(old(state.instances), identity)
      ensures r.Off? <==> seen.record.None?
      ensures !r.Off? ==>
        if Availability().Some? then r == Unavailable(Availability().value) else Answered(seen.record.value, r, seen)
      ensures r.Off? || r.Undecided? ==> state == old(state)
      ensures r.Fine? || r.Unavailable? ==> DeviceWork(old(state), state)
      ensures r.Removed? ==>
        && seen.config.Some? && RemovedByOwner(seen.record.value, seen.config.value)
        && TurnedOff(seen.record.value)
      ensures r.Resubscribed? ==>
        && seen.config.Some? && seen.config.value.key.Some?
        && Resubscription(identity, seen.config.value.key.value, old(state.instances), old(relay))
    {
      seen := Findings(None, false, None, None, 0, None, None);
      var current := FindRecord(identity);
      seen := seen.(record := current);
      if current.None? {
        Idle();
        r := Off;
      } else {
        r, seen := CheckRecord(current.value, seen);
      }
    }

    method CheckRecord(rec: Record, ghost before: Findings) returns (r: CheckResult, ghost seen: Findings)
      requires Valid() && rec in state.instances
      requires before.probe.None? && before.failed == 0
      modifies `device, `state, `relay, `native, `nativeFaults, `heard, `book, `time, `faults, `deleteFaults, `denials
      ensures Valid() && Accounts() && !r.Off?
      ensures if Availability().Some? then r == Unavailable(Availability().value) else Answered(rec, r, seen)
      ensures seen.record == before.record
      ensures r.Undecided? ==> state == old(state)
      ensures r.Fine? || r.Unavailable? ==> DeviceWork(old(state), state)
      ensures r.Removed? ==> TurnedOff(rec)
      ensures r.Resubscribed? ==>
        && seen.config.Some? && seen.config.value.key.Some?
        && Resubscription(rec.identity, seen.config.value.key.value, old(state.instances), old(relay))
    {
      var problem := Availability();
      if problem.Some? {
        Idle();
        r, seen := Unavailable(problem.value), before;
      } else {
        r, seen := AskInstance(rec, before);
      }
    }

    /** With a session and the instance's answer, the record can be judged. */
    method AskInstance(rec: Record, ghost before: Findings) returns (r: CheckResult, ghost seen: Findings)
      requires Valid() && relayOrigin.Some? && rec in state.instances
      requires before.probe.None? && before.failed == 0
      modifies `device, `state, `relay, `native, `nativeFaults, `heard, `book, `time, `faults, `deleteFaults, `denials
      ensures Valid() && Accounts() && !r.Off? && Answered(rec, r, seen) && seen.record == before.record
      ensures r.Undecided? ==> state == old(state)
      ensures r.Fine? || r.Unavailable? ==> DeviceWork(old(state), state)
      ensures r.Removed? ==> TurnedOff(rec)
      ensures r.Resubscribed? ==>
        && seen.config.Some? && seen.config.value.key.Some?
        && Resubscription(rec.identity, seen.config.value.key.value, old(state.instances), old(relay))
    {
      var usable := FreshSession(rec.identity);
      var config := PusherConfig();
      seen := before.(usable := usable, config := config);
      if !usable || config.None? {
        Idle();
        r := Undecided;
      } else {
        r, seen := WithConfig(rec, config.value, seen);
      }
    }

    method WithConfig(rec: Record, config: Config, ghost before: Findings)
      returns (r: CheckResult, ghost seen: Findings)
      requires Valid() && relayOrigin.Some? && rec in state.instances
      requires before.probe.None? && before.failed == 0
      modifies `device, `state, `relay, `native, `nativeFaults, `heard, `book, `time, `faults, `deleteFaults, `denials
      ensures Valid() && Accounts() && !r.Off?
      ensures if config.key.None? then r == Unavailable(config.reason) && denials == old(denials)
              else Judged(rec, config, r, seen)
      ensures seen.record == before.record && seen.usable == before.usable && seen.config == before.config
      ensures r.Undecided? ==> state == old(state)
      ensures r.Fine? || r.Unavailable? ==> DeviceWork(old(state), state)
      ensures r.Removed? ==> TurnedOff(rec)
      ensures r.Resubscribed? ==>
        config.key.Some? && Resubscription(rec.identity, config.key.value, old(state.instances), old(relay))
    {
      if config.key.None? {
        Idle();
        r, seen := Unavailable(config.reason), before;
      } else {
        r, seen := Judge(rec, config, before);
      }
    }

    /** Which answer what was learned calls for. */
    twostate predicate Answered(rec: Record, new r: CheckResult, new seen: Findings)
      reads `device, `relayOrigin, `relay, `heard, `time, `faults, `nativeFaults, `denials
    {
      && (seen.usable && seen.config.Some? && seen.config.value.key.Some? ==>
            Judged(rec, seen.config.value, r, seen))
      && (!seen.usable || seen.config.None? ==> r.Undecided?)
      && (!seen.usable || seen.config.None? || seen.config.value.key.None? ==> denials > old(denials))
      && (seen.usable && seen.config.Some? && seen.config.value.key.None? ==>
            r == Unavailable(seen.config.value.reason))
    }

    /** The answer for a record that the instance gave a key for. */
    twostate predicate Judged(rec: Record, config: Config, new r: CheckResult, new seen: Findings)
      requires config.key.Some?
      reads `device, `relayOrigin, `relay, `heard, `time, `faults, `nativeFaults, `denials
    {
      && (seen.probe.Some? <==> RemovedByOwner(rec, config))
      && (r.Undecided? <==> seen.probe == Some(Unknown))
      && (r.Undecided? ==> denials > old(denials) || faults > old(faults))
      && (r.Removed? <==> seen.probe == Some(Alive))
      && (seen.probe.None? || seen.probe == Some(Forgotten) ==>
            Refreshed(rec, rec.stale || seen.probe == Some(Forgotten), config.key.value, r, seen))
      && seen.failed <= 1 && (seen.probe.None? ==> seen.failed == 0)
    }

    /** Renewed when the subscription is stale, its keys are gone, or the key or the
        relay is another; otherwise fine. A renewal fails only when a call failed. */
    twostate predicate Refreshed(rec: Record, stale: bool, key: string, new r: CheckResult, new seen: Findings)
      reads `device, `relayOrigin, `relay, `heard, `time, `faults, `nativeFaults, `denials
    {
      && (r.Fine? || r.Unavailable? || r.Resubscribed?)
      && (r.Fine? ==>
            && !stale && (seen.listed.None? || rec.subscription in seen.listed.value)
            && rec.instanceKey == key && Some(rec.origin) == relayOrigin
            && relay.issued == old(relay).issued
            && (seen.token.Some? ==> Ensured(seen.token.value) || faults > old(faults)))
      && (!r.Fine? ==>
            || stale || (seen.listed.Some? && rec.subscription !in seen.listed.value)
            || rec.instanceKey != key || Some(rec.origin) != relayOrigin)
      && (seen.token.None? ==> denials > old(denials))
      && (r.Resubscribed? ==> seen.token.Some? && CurrentDevice(seen.token.value))
      && (r.Unavailable? ==>
            if seen.token.None? then r.problem == PushUnavailable
            else faults > old(faults) + seen.failed
                 || nativeFaults > old(nativeFaults) + if seen.listed.None? then 1 else 0)
    }

    /** Exactly one record of the account, newly made with the instance's key. */
    ghost predicate Resubscription(identity: string, key: string, before: seq<Record>, earlier: Relay)
      reads `device, `relayOrigin, `state, `relay, `native
    {
      exists rec ::
        && Live(rec, identity) && rec.instanceKey == key && rec.subscription !in earlier.issued
        && Replaced(before, state.instances, rec)
    }

    /** A pusher the owner removed turns the account off; anything else is renewed
        when it has to be. */
    method Judge(rec: Record, config: Config, ghost before: Findings) returns (r: CheckResult, ghost seen: Findings)
      requires Valid() && relayOrigin.Some? && rec in state.instances && config.key.Some?
      requires before.probe.None? && before.failed == 0
      modifies `device, `state, `relay, `native, `nativeFaults, `heard, `book, `time, `faults, `deleteFaults, `denials
      ensures Valid() && Accounts() && !r.Off?
      ensures Judged(rec, config, r, seen)
      ensures seen.record == before.record && seen.usable == before.usable && seen.config == before.config
      ensures r.Undecided? ==> state == old(state)
      ensures r.Fine? || r.Unavailable? ==> DeviceWork(old(state), state)
      ensures r.Removed? ==> TurnedOff(rec)
      ensures r.Resubscribed? ==> Resubscription(rec.identity, config.key.value, old(state.instances), old(relay))
    {
      var stale, decided := rec.stale, None;
      seen := before;
      if !rec.stale && rec.pusher !in config.pushers {
        stale := true;
        decided, seen := Missing(rec, config, before);
      }
      label open:
      if decided.Some? {
        r := decided.value;
      } else {
        r, seen := Refresh(rec, stale, config.key.value, seen);
        LaterTransitive(old(relay), old@open(relay), relay);
      }
    }

    /** The account's records are gone, after the relay said that it knows the device. */
    twostate predicate TurnedOff(rec: Record)
      reads `state, `relay, `nativeFaults, `native, `heard
    {
      && state.instances == Except(old(state).instances, rec.identity) && relay.issued == old(relay).issued
      && KeysGone(rec.identity)
      && rec.subscription in relay.issued && heard == old(heard) + [relay.issued[rec.subscription]]
    }

    /** The pusher of a record that is not stale is gone. The relay says why: it knows the
        device, so the owner removed it; it does not, so the record is to be renewed (no
        result yet); or it cannot be asked. */
    method Missing(rec: Record, config: Config, ghost before: Findings)
      returns (r: Option<CheckResult>, ghost seen: Findings)
      requires Valid() && relayOrigin.Some? && rec in state.instances && RemovedByOwner(rec, config)
      modifies `device, `state, `relay, `native, `nativeFaults, `heard, `book, `time, `faults, `deleteFaults, `denials
      ensures Valid() && Accounts()
      ensures old(faults) <= faults <= old(faults) + 1 && old(denials) <= denials
      ensures seen.probe == Some(Unknown) ==> denials > old(denials) || faults > old(faults)
      ensures seen == before.(probe := seen.probe, failed := faults - old(faults)) && seen.probe.Some?
      ensures r == match seen.probe.value
                   case Unknown => Some(Undecided)
                   case Alive => Some(Removed)
                   case Forgotten => None
      ensures !seen.probe.value.Alive? ==>
        && device == old(device) && state == old(state) && heard == old(heard) && book == old(book)
        && nativeFaults == old(nativeFaults) && relay.issued == old(relay.issued)
      ensures seen.probe.value.Alive? ==> TurnedOff(rec)
    {
      assert RecordOk(rec, device, relay, native);
      var probed;
      ghost var t, told;
      probed, t, told := ProbeDevice();
      seen := before.(probe := Some(probed), failed := faults - old(faults));
      r := None;
      if probed.Unknown? {
        r := Some(Undecided);
      } else if probed.Alive? {
        label asked:
        RemoveRecord(rec);
        LaterTransitive(old(relay), old@asked(relay), relay);
        r := Some(Removed);
      }
    }

    /** Renews the subscription when it has to be, or keeps the device alive. */
    method Refresh(rec: Record, stale: bool, key: string, ghost before: Findings)
      returns (r: CheckResult, ghost seen: Findings)
      requires Valid() && relayOrigin.Some? && rec in state.instances
      modifies `device, `state, `relay, `native, `nativeFaults, `heard, `book, `time, `faults, `deleteFaults, `denials
      ensures Valid() && Accounts() && Refreshed(rec, stale, key, r, seen.(failed := 0))
      ensures seen == before.(listed := seen.listed, token := seen.token)
      ensures seen.listed.Some? ==> forall id :: id in seen.listed.value ==> id in old(native.keys)
      ensures seen.listed.Some? && rec.subscription in old(native.keys) && rec.subscription !in seen.listed.value ==>
        rec.subscription in native.lost
      ensures r.Fine? || r.Unavailable? ==> DeviceWork(old(state), state)
      ensures r.Resubscribed? ==> Resubscription(rec.identity, key, old(state.instances), old(relay))
    {
      var keysMissing, token;
      keysMissing, token, seen := Look(rec, before);
      if stale || keysMissing || rec.instanceKey != key || Some(rec.origin) != relayOrigin {
        r := Resubscribe(rec, key, token);
      } else {
        r := Fine;
        KeepAlive(token);
      }
    }

    /** Whether the record's keys are gone from the native store, as far as it says, and
        the current token. */
    method Look(rec: Record, ghost before: Findings)
      returns (keysMissing: bool, token: Option<PushToken>, ghost seen: Findings)
      requires Valid()
      modifies `native, `nativeFaults, `denials
      ensures Valid() && NativeQuiet(old(native), native)
      ensures seen == before.(listed := seen.listed, token := token)
      ensures keysMissing <==> seen.listed.Some? && rec.subscription !in seen.listed.value
      ensures seen.listed.Some? ==> forall id :: id in seen.listed.value <==> id in native.keys
      ensures nativeFaults == old(nativeFaults) + if seen.listed.Some? then 0 else 1
      ensures denials == old(denials) + if token.Some? then 0 else 1
    {
      var ids := ListKeys();
      SoundLater(device, state, relay, old(native), book, relay, native);
      keysMissing := ids.Some? && rec.subscription !in ids.value;
      token := CurrentToken();
      seen := before.(listed := ids, token := token);
    }

    /** The device is brought up to date, if there is a token. */
    method KeepAlive(token: Option<PushToken>)
      requires Valid() && relayOrigin.Some?
      modifies `device, `state, `relay, `native, `heard, `book, `time, `faults
      ensures Valid() && Accounts() && DeviceWork(old(state), state)
      ensures relay.issued == old(relay.issued) && old(native.lost) <= native.lost
      ensures token.Some? ==> Ensured(token.value) || faults > old(faults)
    {
      if token.Some? { var _, _, _ := EnsureDevice(token.value); }
    }

    method Resubscribe(rec: Record, key: string, token: Option<PushToken>) returns (r: CheckResult)
      requires Valid() && relayOrigin.Some? && rec in state.instances
      modifies `device, `state, `relay, `native, `nativeFaults, `heard, `book, `time, `faults, `deleteFaults
      ensures old(native.lost) <= native.lost
      ensures Valid() && Accounts()
      ensures r.Resubscribed? || r.Unavailable?
      ensures r.Unavailable? ==> DeviceWork(old(state), state)
      ensures r.Unavailable? ==>
        if token.None? then r.problem == PushUnavailable
        else faults > old(faults) || nativeFaults > old(nativeFaults)
      ensures r.Resubscribed? ==>
        && token.Some? && CurrentDevice(token.value)
        && Resubscription(rec.identity, key, old(state.instances), old(relay))
    {
      if token.None? {
        r := Unavailable(PushUnavailable);
      } else {
        var renewed := Renew(rec.identity, Some(rec), key, token.value);
        r := if renewed.Success? then Resubscribed else Unavailable(renewed.problem);
      }
    }

    /** With every saved account: drops the others' records, keys nothing refers to,
        and the queued subscriptions. When no native call fails, the keys left are
        the records'. */
    method Reconcile(saved: set<string>)
      requires Valid()
      modifies `state, `relay, `native, `nativeFaults, `book, `deleteFaults
      ensures Valid() && Accounts()
      ensures Availability().Some? ==> state == old(state) && native == old(native) && relay == old(relay)
      ensures Availability().None? ==>
        && (forall x :: x in state.instances <==> x in old(state.instances) && x.identity in saved)
        && (nativeFaults == old(nativeFaults) ==> native.keys <= Ids(state.instances) <= native.keys + native.lost)
        && (deleteFaults == old(deleteFaults) ==> state.pending == [])
    {
      var problem := Availability();
      if problem.None? {
        DropUnsaved(saved);
        DropOrphans();
        RetryRemovals();
        RecordedKeys(device, state, relay, native, book);
      }
    }

    method DropUnsaved(saved: set<string>)
      requires Valid() && relayOrigin.Some?
      modifies `state, `relay, `native, `nativeFaults, `book, `deleteFaults
      ensures Valid() && Accounts() && nativeFaults >= old(nativeFaults) && deleteFaults >= old(deleteFaults)
      ensures forall x :: x in state.instances <==> x in old(state.instances) && x.identity in saved
    {
      var snapshot := state.instances;
      for i := 0 to |snapshot|
        invariant Valid() && Accounts() && nativeFaults >= old(nativeFaults) && deleteFaults >= old(deleteFaults)
        invariant Distinct(snapshot) && Swept(state.instances, snapshot, saved, i)
      {
        SweptOne(state.instances, snapshot, saved, i);
        if snapshot[i].identity !in saved {
          label before:
          RemoveRecord(snapshot[i]);
          LaterTransitive(old(relay), old@before(relay), relay);
          EvictionsTransitive(old(book), old@before(book), book);
        }
      }
    }

    /** Keys without a record go. */
    method DropOrphans()
      requires Valid() && relayOrigin.Some?
      modifies `relay, `native, `nativeFaults, `deleteFaults
      ensures Valid() && Forgets(old(relay), relay) && nativeFaults >= old(nativeFaults)
      ensures nativeFaults == old(nativeFaults) ==> native.keys <= Ids(state.instances)
      ensures deleteFaults >= old(deleteFaults)
      ensures nativeFaults == old(nativeFaults) && deleteFaults == old(deleteFaults) ==>
        forall id :: id in old(native.keys) && id !in Ids(state.instances) ==> id in native.lost || !OnRelay(id)
    {
      var known := Ids(state.instances);
      var listed := ListKeys();
      SoundLater(device, state, relay, old(native), book, relay, native);
      var ids := if listed.Some? then listed.value else [];
      ghost var keyFaults, relayFaults, listedAt := old(nativeFaults), deleteFaults, native.lost;
      for i := 0 to |ids|
        invariant Valid() && Forgets(old(relay), relay) && nativeFaults >= keyFaults + if listed.None? then 1 else 0
        invariant nativeFaults == keyFaults ==> forall id :: id in native.keys ==> id in known || id in ids[i..]
        invariant deleteFaults >= relayFaults && listedAt <= native.lost
        invariant deleteFaults == relayFaults ==> OffRelay(ids[..i], known)
      {
        assert ids[i..] == [ids[i]] + ids[i + 1..] && ids[..i + 1] == ids[..i] + [ids[i]];
        if ids[i] !in known { DropOrphan(ids[i]); }
      }
    }

    /** A subscription of the saved device on the relay of this build. */
    ghost predicate OnRelay(id: string)
      reads `device, `relayOrigin, `relay
    {
      && device.Some? && Some(device.value.origin) == relayOrigin
      && id in relay.subs && relay.subs[id] == device.value.Key()
    }

    /** None of these but the known ones is on the relay. */
    ghost predicate OffRelay(ids: seq<string>, known: set<string>)
      reads `device, `relayOrigin, `relay
    {
      forall id :: id in ids && id !in known ==> !OnRelay(id)
    }

    method DropOrphan(id: string)
      requires Valid() && relayOrigin.Some? && id !in Ids(state.instances)
      modifies `relay, `native, `nativeFaults, `deleteFaults
      ensures Valid() && Forgets(old(relay), relay) && old(native.lost) <= native.lost
      ensures native.keys <= old(native.keys) && nativeFaults >= old(nativeFaults)
      ensures nativeFaults == old(nativeFaults) ==> id !in native.keys
      ensures old(deleteFaults) <= deleteFaults
      ensures deleteFaults == old(deleteFaults) ==> !OnRelay(id)
    {
      DeleteKeys(id);
      UnrecordedKeys(device, state, relay, old(native), native, book, id);
      if device.Some? && Some(device.value.origin) == relayOrigin {
        label deleted:
        var _ := DeleteSubscription(device.value, id);
        SoundLater(device, state, old@deleted(relay), old@deleted(native), book, relay, native);
      }
    }

    /** What is still queued afterwards failed again; what is not is gone from its
        relay or not in use. */
    method RetryRemovals()
      requires Valid() && relayOrigin.Some?
      modifies `state, `relay, `native, `book, `deleteFaults
      ensures Valid() && Accounts() && native.keys <= old(native.keys)
      ensures state == old(state).(pending := state.pending)
      ensures book.dropped == old(book.dropped) && book.evicted == old(book.evicted)
      ensures old(deleteFaults) <= deleteFaults && |state.pending| == deleteFaults - old(deleteFaults)
      ensures forall p :: p in state.pending ==>
        p in old(state.pending) && Reachable(p)
      ensures forall p :: p in old(state.pending) ==>
        || p in state.pending
        || p.subscription !in relay.subs
        || !InUse(relay.issued[p.subscription], CurrentUse())
    {
      var queue := state.pending;
      var left := [];
      for i := 0 to |queue|
        invariant Valid() && Accounts() && state == old(state) && native.keys <= old(native.keys)
        invariant book == old(book).(retired := book.retired)
        invariant Retried(queue, left, i) && deleteFaults == old(deleteFaults) + |left|
      {
        label before:
        left := RetryNext(queue, left, i);
        LaterTransitive(old(relay), old@before(relay), relay);
      }
      SoundRequeued(device, state, relay, native, book, left);
      book := book.(queues := book.queues + [left]);
      state := state.(pending := left);
    }

    /** Gone from its relay, or given up and not in use. */
    ghost predicate LetGo(s: string)
      reads `device, `relayOrigin, `relay, `book
    {
      s !in relay.subs || (s in book.retired && s in relay.issued && !InUse(relay.issued[s], CurrentUse()))
    }

    /** The saved device is on the relay of the removal, which is this build's. */
    ghost predicate Reachable(p: Removal)
      reads `device, `relayOrigin
    {
      Some(p.origin) == relayOrigin && device.Some? && device.value.origin == p.origin
    }

    /** Of the first i removals those left are queued again, the others let go. */
    ghost predicate Retried(queue: seq<Removal>, left: seq<Removal>, i: nat)
      reads `device, `relayOrigin, `relay, `book
    {
      && |left| <= i <= |queue| && (forall p :: p in left ==> p in queue[..i] && Reachable(p))
      && Waiting(left, book.dropped)
      && forall j :: 0 <= j < i ==> queue[j] in left || LetGo(queue[j].subscription)
    }

    method RetryNext(queue: seq<Removal>, left: seq<Removal>, i: nat) returns (next: seq<Removal>)
      requires Valid() && relayOrigin.Some? && queue == state.pending && i < |queue| && Retried(queue, left, i)
      modifies `relay, `native, `book, `deleteFaults
      ensures Valid() && Accounts() && NativeQuiet(old(native), native)
      ensures book == old(book).(retired := book.retired)
      ensures Retried(queue, next, i + 1) && deleteFaults - old(deleteFaults) == |next| - |left|
    {
      var again := RetryRemoval(queue[i]);
      next := left;
      if again {
        WaitingMore(queue, left, i, book.dropped);
        next := left + [queue[i]];
      }
      forall j | 0 <= j < i + 1 ensures queue[j] in next || LetGo(queue[j].subscription) {
        assert j < i && queue[j] in left ==> queue[j] in next;
        assert j == i && again ==> next[|left|] == queue[j];
      }
    }

    method RetryRemoval(p: Removal) returns (again: bool)
      requires Valid() && relayOrigin.Some? && p in state.pending
      modifies `relay, `native, `book, `deleteFaults
      ensures Valid() && Accounts() && Forgets(old(relay), relay) && NativeQuiet(old(native), native)
      ensures deleteFaults == old(deleteFaults) + if again then 1 else 0
      ensures if again then Reachable(p) else LetGo(p.subscription)
      ensures book == old(book).(retired := book.retired)
    {
      ghost var gone;
      again, gone := DeleteOnRelay(p, false);
      if !again && !gone {
        SoundRetired(device, state, relay, native, book, p, CurrentUse());
        book := book.(retired := book.retired[p.subscription := CurrentUse()]);
      }
    }

    /** A new token goes to the relay when something is on; no record is lost. */
    method TokenRefreshed(t: PushToken)
      requires Valid()
      modifies `device, `state, `relay, `native, `heard, `book, `time, `faults
      ensures Valid() && Accounts() && DeviceWork(old(state), state) && relay.issued == old(relay.issued)
      ensures Availability().Some? || old(device).None? || old(state.instances) == [] ==> Unasked()
      ensures Availability().None? && old(device).Some? && old(state.instances) != [] ==>
        Ensured(t) || faults > old(faults)
    {
      var problem := Availability();
      if problem.None? && device.Some? && state.instances != [] {
        var _, _, _ := EnsureDevice(t);
      }
    }

    /** Signing out leaves no record of the account. */
    method AccountRemoving(identity: string)
      requires Valid()
      modifies `state, `relay, `native, `nativeFaults, `book, `deleteFaults
      ensures Valid() && Accounts()
      ensures state ==
        if Availability().Some? then old(state)
        else old(state).(instances := Except(old(state.instances), identity), pending := state.pending)
      ensures Availability().None? ==> KeysGone(identity)
    {
      var problem := Availability();
      if problem.None? { Forget(identity); }
    }

    method Forget(identity: string)
      requires Valid() && relayOrigin.Some?
      modifies `state, `relay, `native, `nativeFaults, `book, `deleteFaults
      ensures Valid() && Accounts()
      ensures state == old(state).(instances := Except(old(state.instances), identity), pending := state.pending)
      ensures KeysGone(identity)
    {
      var current := FindRecord(identity);
      if current.Some? {
        RemoveRecord(current.value);
      } else {
        ExceptNone(state.instances, identity);
      }
    }

    method ShouldPrompt(identity: string) returns (ask: bool)
      ensures ask <==>
        Availability().None? && identity !in state.prompted && !Recorded(state.instances, identity)
    {
      var problem := Availability();
      var current := FindRecord(identity);
      ask := problem.None? && identity !in state.prompted && current.None?;
    }

    /** A launch of some build of the app on the same phone. */
    method Launch(native: bool, origin: Option<string>, secure: bool)
      requires Valid()
      modifies `hasNative, `relayOrigin, `secure
      ensures Valid()
    {
      hasNative, relayOrigin, this.secure := native, origin, secure;
    }

    /** Any task, launch or change outside the app. */
    method Step()
      requires Valid()
      modifies this
      ensures Valid() && Accounts()
    {
      var identity: string := *;
      if
      case true => var _, _ := Enable(identity);
      case true => var _ := Disable(identity);
      case true => var _, _ := Check(identity);
      case true =>
        var saved: set<string> := *;
        Reconcile(saved);
      case true =>
        var t: PushToken := *;
        TokenRefreshed(t);
      case true => AccountRemoving(identity);
      case true => MarkPrompted(identity);
      case true =>
        var hasNative, secure: bool := *, *;
        var build: Option<string> := *;
        Launch(hasNative, build, secure);
      case true =>
        Others();
        SoundLater(device, state, old(relay), old(native), book, relay, native);
    }

    ghost function Between(): Boundary
      reads this
    {
      Boundary(state.instances, state.pending, CurrentUse(), if book.queues == [] then 0 else |book.queues| - 1)
    }

    /** Any tasks, launches and changes outside the app, in any order. Every
        subscription ever recorded between two of them is recorded still, gone from
        its relay, queued, was the oldest of a full queue, or was later out of use. */
    method Run(steps: nat) returns (ghost trace: seq<Boundary>)
      requires Valid()
      modifies this
      ensures Valid() && |trace| == steps + 1
      ensures trace[0] == old(Between())
      ensures trace[steps] == Between()
      ensures forall i :: 0 <= i <= steps ==> WasQueue(trace[i], book)
      ensures forall i, x :: 0 <= i <= steps && x in trace[i].instances ==> AccountedFor(x.subscription, i, trace)
    {
      trace := [Between()];
      TracedFirst(device, state, relay, native, book, trace[0]);
      for i := 0 to steps
        invariant Valid() && |trace| == i + 1
        invariant trace[0] == old(Between())
        invariant trace[i] == Between()
        invariant Traced(trace, state, relay, book)
      {
        label before:
        Step();
        var next := Between();
        TracedNext(trace, old@before(state), old@before(relay), old@before(book), next,
                   device, state, relay, native, book);
        trace := trace + [next];
      }
    }

    ghost predicate AccountedFor(s: string, i: nat, trace: seq<Boundary>)
      requires i < |trace|
      reads this
    {
      && s in relay.issued
      && (|| s in Ids(state.instances)
          || s !in relay.subs
          || Queued(s, state.pending)
          || (s in book.evicted && trace[i].moment <= book.evicted[s] && Overflowed(s, book.evicted[s], book))
          || OutOfUse(s, i, trace, relay))
    }

    constructor ()
      ensures Valid() && state == State([], [], [], None) && device.None?
    {
      hasNative, relayOrigin, secure := true, None, true;
      device, state := None, State([], [], [], None);
      relay, native := Relay({}, map[], map[], {}), Native({}, {});
      heard, nativeFaults, faults, denials, deleteFaults, time := [], 0, 0, 0, 0, 0;
      book := Book({}, [[]], map[], map[]);
    }

    /** A record of the account, not stale, for the relay of this build. */
    ghost predicate Live(r: Record, identity: string)
      reads `device, `relayOrigin, `state, `relay, `native
    {
      && r.identity == identity && !r.stale && Some(r.origin) == relayOrigin
      && r in state.instances && RecordOk(r, device, relay, native)
    }
  }

  /** The records, the queue and the use between two tasks; `moment` is the instant of
      that queue among all it ever was. */
  datatype Boundary = Boundary(instances: seq<Record>, pending: seq<Removal>, use: Use, moment: nat)

  /** At some later boundary the subscription was not in use. */
  ghost predicate OutOfUse(s: string, i: nat, trace: seq<Boundary>, relay: Relay)
    requires s in relay.issued
  {
    exists k :: i < k < |trace| && !InUse(relay.issued[s], trace[k].use)
  }

  ghost predicate WasQueue(b: Boundary, book: Book) {
    b.moment < |book.queues| && book.queues[b.moment] == b.pending
  }

  ghost predicate Traced(trace: seq<Boundary>, state: State, relay: Relay, book: Book) {
    && (forall i :: 0 <= i < |trace| ==> WasQueue(trace[i], book))
    && forall i, x :: 0 <= i < |trace| && x in trace[i].instances ==>
         TracedOne(i, x.subscription, trace, state, relay, book)
  }

  ghost predicate TracedOne(i: nat, s: string, trace: seq<Boundary>, state: State, relay: Relay, book: Book)
    requires i < |trace|
  {
    && s in relay.issued
    && s in Ids(state.instances) + book.dropped
    && (s in book.retired ==> OutOfUse(s, i, trace, relay))
    && (s in book.evicted ==> trace[i].moment <= book.evicted[s])
  }

  /** A recorded subscription is issued and neither dropped, retired nor evicted. */
  lemma RecordedIsNotRetired(device: Option<RelayDevice>, state: State, relay: Relay, native: Native, book: Book,
                             x: Record)
    requires Sound(device, state, relay, native, book) && x in state.instances
    ensures x.subscription in relay.issued && x.subscription in Ids(state.instances)
    ensures x.subscription !in book.retired && x.subscription !in book.evicted
  {
    var s := x.subscription;
    assert RecordOk(x, device, relay, native);
    assert s in book.retired ==> RetiredOk(s, book, relay);
    assert s in book.evicted ==> Overflowed(s, book.evicted[s], book);
  }

  lemma TracedFirst(device: Option<RelayDevice>, state: State, relay: Relay, native: Native, book: Book, b: Boundary)
    requires Sound(device, state, relay, native, book) && b.instances == state.instances && WasQueue(b, book)
    ensures Traced([b], state, relay, book)
  {
    forall x | x in state.instances ensures TracedOne(0, x.subscription, [b], state, relay, book) {
      RecordedIsNotRetired(device, state, relay, native, book, x);
    }
  }

  lemma TracedNext(trace: seq<Boundary>, state: State, relay: Relay, book: Book, next: Boundary,
                   device': Option<RelayDevice>, state': State, relay': Relay, native': Native, book': Book)
    requires Traced(trace, state, relay, book) && Sound(device', state', relay', native', book')
    requires next.instances == state'.instances && WasQueue(next, book')
    requires RelayLater(relay, relay') && book.dropped <= book'.dropped
    requires Ids(state.instances) <= Ids(state'.instances) + book'.dropped
    requires Retiring(book, book', relay', next.use) && Evictions(book, book')
    ensures Traced(trace + [next], state', relay', book')
  {
    var trace' := trace + [next];
    forall i | 0 <= i < |trace'| ensures WasQueue(trace'[i], book') {
      if i < |trace| { assert WasQueue(trace[i], book); }
    }
    forall i, x | 0 <= i < |trace'| && x in trace'[i].instances
      ensures TracedOne(i, x.subscription, trace', state', relay', book')
    {
      if i == |trace| {
        RecordedIsNotRetired(device', state', relay', native', book', x);
      } else {
        assert WasQueue(trace[i], book);
        TracedStays(i, x.subscription, trace, state, relay, book, next, state', relay', book');
      }
    }
  }

  lemma TracedStays(i: nat, s: string, trace: seq<Boundary>, state: State, relay: Relay, book: Book, next: Boundary,
                    state': State, relay': Relay, book': Book)
    requires i < |trace| && WasQueue(trace[i], book) && TracedOne(i, s, trace, state, relay, book)
    requires RelayLater(relay, relay') && book.dropped <= book'.dropped
    requires Ids(state.instances) <= Ids(state'.instances) + book'.dropped
    requires Retiring(book, book', relay', next.use) && Evictions(book, book')
    ensures TracedOne(i, s, trace + [next], state', relay', book')
  {
    var trace' := trace + [next];
    if s in book.retired {
      var k :| i < k < |trace| && !InUse(relay.issued[s], trace[k].use);
      assert trace'[k] == trace[k];
    } else {
      assert trace'[|trace|] == next;
    }
  }

  /** The pusher of a record not known to be stale is gone from its instance. */
  predicate RemovedByOwner(rec: Record, config: Config) {
    !rec.stale && config.key.Some? && rec.pusher !in config.pushers
  }

  /** The account's record is `r` now; the others are as before, or all stale. */
  ghost predicate Replaced(l: seq<Record>, l': seq<Record>, r: Record) {
    l' == Except(l, r.identity) + [r] || l' == Except(AllStale(l), r.identity) + [r]
  }

  lemma WaitingMore(queue: seq<Removal>, left: seq<Removal>, i: nat, dropped: set<string>)
    requires Waiting(queue, dropped) && Waiting(left, dropped)
    requires i < |queue| && forall p :: p in left ==> p in queue[..i]
    ensures Waiting(left + [queue[i]], dropped)
  {
    forall a | 0 <= a < |left| ensures left[a].subscription != queue[i].subscription {
      assert left[a] in queue[..i];
      var j :| 0 <= j < i && queue[..i][j] == left[a];
      assert queue[j] == left[a];
    }
  }

  /** A queued removal is given up when it is not in use. */
  lemma SoundRetired(device: Option<RelayDevice>, state: State, relay: Relay, native: Native, book: Book, p: Removal,
                     u: Use)
    requires Sound(device, state, relay, native, book) && p in state.pending
    requires !InUse(relay.issued[p.subscription], u)
    ensures
      var book' := book.(retired := book.retired[p.subscription := u]);
      Sound(device, state, relay, native, book') && Retiring(book, book', relay, u)
  {
    var book' := book.(retired := book.retired[p.subscription := u]);
    assert Issued(p.subscription, p.origin, relay) && p.subscription in book.dropped;
    forall s | s in book.dropped ensures Settled(s, state.pending, relay, book') {
      assert Settled(s, state.pending, relay, book);
    }
    forall s | s in book'.retired ensures RetiredOk(s, book', relay) {
      if s != p.subscription { assert RetiredOk(s, book, relay); }
    }
    forall s | s in book'.evicted ensures Overflowed(s, book'.evicted[s], book') {
      OverflowedStays(s, book.evicted[s], book, book');
    }
  }

  lemma StillOk(r: Record, device: Option<RelayDevice>, relay: Relay, relay': Relay, native: Native, native': Native,
                id: string)
    requires RecordOk(r, device, relay, native) && r.subscription != id
    requires RelayLater(relay, relay') && native.keys + native.lost <= native'.keys + native'.lost + {id}
    ensures RecordOk(r, device, relay', native')
  {
  }

  /** Never recorded before. */
  ghost predicate Fresh(subscription: string, state: State, book: Book) {
    subscription !in book.dropped && forall x :: x in state.instances ==> x.subscription != subscription
  }

  lemma FreshRecord(device: Option<RelayDevice>, state: State, relay: Relay, native: Native, book: Book,
                    state': State, book': Book, subscription: string)
    requires Sound(device, state, relay, native, book) && subscription !in relay.issued
    requires DeviceWork(state, state') && book'.dropped == book.dropped
    ensures Fresh(subscription, state', book')
  {
    assert subscription in book.dropped ==> Settled(subscription, state.pending, relay, book);
    forall x | x in state'.instances ensures x.subscription != subscription {
      var i :| 0 <= i < |state'.instances| && state'.instances[i] == x;
      assert RecordOk(state.instances[i], device, relay, native);
    }
  }

  lemma PreviousIsThere(s: State, s': State, r: Record)
    requires DeviceWork(s, s') && r in s.instances && Distinct(s.instances)
    ensures r in s'.instances || r.(stale := true) in s'.instances
    ensures forall x :: x in s'.instances ==> (x.identity == r.identity <==> x.subscription == r.subscription)
    ensures Distinct(s'.instances)
  {
    var i :| 0 <= i < |s.instances| && s.instances[i] == r;
    assert s'.instances[i] == r || s'.instances[i] == r.(stale := true);
    forall x | x in s'.instances ensures x.identity == r.identity <==> x.subscription == r.subscription {
      var j :| 0 <= j < |s'.instances| && s'.instances[j] == x;
      assert s.instances[j].identity == x.identity && s.instances[j].subscription == x.subscription;
    }
  }

  lemma {:induction false} WithoutIsExcept(l: seq<Record>, subscription: string, identity: string)
    requires forall x :: x in l ==> (x.identity == identity <==> x.subscription == subscription)
    ensures Without(l, subscription) == Except(l, identity) == Except(Except(l, identity), identity)
  {
    if l != [] {
      WithoutIsExcept(l[..|l| - 1], subscription, identity);
    }
    ExceptNone(Except(l, identity), identity);
  }

  lemma {:induction false} ExceptNone(l: seq<Record>, identity: string)
    requires forall x :: x in l ==> x.identity != identity
    ensures Except(l, identity) == l
  {
    if l != [] {
      var n := |l| - 1;
      assert l == l[..n] + [l[n]] && l[n] in l;
      forall x | x in l[..n] ensures x.identity != identity {
        assert x in l;
      }
      ExceptNone(l[..n], identity);
    }
  }

  /** Of the first i records only those of saved accounts are left. */
  ghost predicate Swept(l: seq<Record>, snapshot: seq<Record>, saved: set<string>, i: nat) {
    && (forall x :: x in l ==> x in snapshot)
    && forall j :: 0 <= j < |snapshot| ==> (snapshot[j] in l <==> j >= i || snapshot[j].identity in saved)
  }

  lemma {:induction false} SweptOne(l: seq<Record>, snapshot: seq<Record>, saved: set<string>, i: nat)
    requires Distinct(snapshot) && i < |snapshot| && Swept(l, snapshot, saved, i)
    ensures snapshot[i] in l
    ensures Swept(if snapshot[i].identity in saved then l else Except(l, snapshot[i].identity), snapshot, saved, i + 1)
  {
  }

  /** The account has a record. */
  predicate Recorded(l: seq<Record>, identity: string) {
    exists x :: x in l && x.identity == identity
  }

  function Ids(l: seq<Record>): (r: set<string>)
    ensures forall id :: id in r <==> exists x :: x in l && x.subscription == id
  {
    set x | x in l :: x.subscription
  }

  lemma RecordedKeys(device: Option<RelayDevice>, state: State, relay: Relay, native: Native, book: Book)
    requires Sound(device, state, relay, native, book)
    ensures Ids(state.instances) <= native.keys + native.lost
  {
    forall id | id in Ids(state.instances) ensures id in native.keys + native.lost {
      var x :| x in state.instances && x.subscription == id;
      assert RecordOk(x, device, relay, native);
    }
  }

  /** The queue may lose what is gone or retired. */
  lemma SoundRequeued(device: Option<RelayDevice>, state: State, relay: Relay, native: Native, book: Book,
                      left: seq<Removal>)
    requires Sound(device, state, relay, native, book)
    requires |left| <= |state.pending| && Waiting(left, book.dropped) && forall p :: p in left ==> p in state.pending
    requires forall p :: p in state.pending ==>
      p in left || p.subscription !in relay.subs || p.subscription in book.retired
    ensures
      var book' := book.(queues := book.queues + [left]);
      Sound(device, state.(pending := left), relay, native, book') && Evictions(book, book')
  {
    var book' := book.(queues := book.queues + [left]);
    forall s | s in book.dropped ensures Settled(s, left, relay, book') {
      assert Settled(s, state.pending, relay, book);
    }
    QueuesNext(book.queues, state.pending, left);
    forall s | s in book'.retired ensures RetiredOk(s, book', relay) {
      assert RetiredOk(s, book, relay);
    }
    forall s | s in book'.evicted ensures Overflowed(s, book'.evicted[s], book') {
      OverflowedStays(s, book.evicted[s], book, book');
    }
  }

  /** Keys of a subscription without a record may go. */
  lemma UnrecordedKeys(device: Option<RelayDevice>, state: State, relay: Relay, native: Native, native': Native,
                       book: Book, id: string)
    requires Sound(device, state, relay, native, book)
    requires native.keys + native.lost <= native'.keys + native'.lost + {id}
    requires forall r :: r in state.instances ==> r.subscription != id
    ensures Sound(device, state, relay, native', book)
  {
    forall r | r in state.instances ensures RecordOk(r, device, relay, native') {
      assert RecordOk(r, device, relay, native);
    }
    forall x | x in book.dropped ensures Settled(x, state.pending, relay, book) {
    }
  }
}
