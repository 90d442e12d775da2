/** POST /push/{endpoint} (push.ts): the checks, admission, the invalidation breaker
    and the delivery outcome, with other handlers' batches in between. */
module RelayPush {
  import opened Common
  import opened RateLimit
  import opened RelayStore
  import WebPush

  datatype Bucket =
    | PushEndpoint(endpoint: string)
    | PushDevice(device: string)
    | PushDeviceActive(device: string)
    | Deliveries(platform: Platform)
    | Invalidations(platform: Platform)
    | Rule(scope: string, key: string, seconds: Seconds)

  type Rows = map<Bucket, Window>

  /** `breakerShare(n)` is breakerMaxRatio times n deliveries. */
  datatype Limits = Limits(
    endpointPerMinute: nat,
    devicePerMinute: nat,
    maxTtlSeconds: nat,
    invalidRowsPerToken: nat,
    invalidRetentionSeconds: nat,
    inactiveDeviceSeconds: nat,
    breakerWindowSeconds: Seconds,
    breakerMaxInvalidations: nat,
    breakerShare: nat -> real,
    breakerMinDeliveries: nat)

  const MINUTE: Seconds := 60
  const DAY := 86400
  const MAX_PUSH_BODY_BYTES := 2800

  function WidthOf(b: Bucket, limits: Limits): Seconds {
    match b
    case Deliveries(_) => limits.breakerWindowSeconds
    case Invalidations(_) => limits.breakerWindowSeconds
    case Rule(_, _, seconds) => seconds
    case _ => MINUTE
  }

  function Op(b: Bucket, limits: Limits, increment: bool): CounterOp<Bucket> {
    CounterOp(b, WidthOf(b, limits), increment)
  }

  function Bump(rows: Rows, b: Bucket, now: nat, limits: Limits): Rows {
    RowsAfter(rows, Op(b, limits, true), now)
  }

  function Count(rows: Rows, b: Bucket, now: nat, limits: Limits): nat {
    Peek(RowOf(rows, b), WindowStart(now, WidthOf(b, limits)))
  }

  // --- Admission ------------------------------------------------------------------------

  function FairShare(limits: Limits, active: nat): nat {
    limits.devicePerMinute / Max(active, 1)
  }

  /** An endpoint is within its fair share when as many messages from every active one
      would still fit the device's budget. */
  lemma FairShareIs(limits: Limits, active: nat, count: nat)
    ensures count <= FairShare(limits, active) <==> count * Max(active, 1) <= limits.devicePerMinute
  {
    QuotientIs(limits.devicePerMinute, Max(active, 1), count);
  }

  datatype Admission = Admission(rows: Rows, allowed: bool)

  /** `admit`, when nothing else touches the counters meanwhile. */
  function Admitted(rows: Rows, endpoint: string, device: string, now: nat, limits: Limits): Admission {
    var rows1 := Bump(rows, PushEndpoint(endpoint), now, limits);
    var endpointCount := Count(rows1, PushEndpoint(endpoint), now, limits);
    var deviceCount := Count(rows1, PushDevice(device), now, limits);
    if endpointCount > limits.endpointPerMinute then Admission(rows1, false)
    else
      var rows2 := if endpointCount == 1 then Bump(rows1, PushDeviceActive(device), now, limits) else rows1;
      var active := Count(rows2, PushDeviceActive(device), now, limits);
      Admission(rows2, !(deviceCount >= limits.devicePerMinute && endpointCount > FairShare(limits, active)))
  }

  // --- Breaker ---------------------------------------------------------------------------

  predicate BreakerOpen(invalidations: nat, deliveries: nat, limits: Limits) {
    || invalidations > limits.breakerMaxInvalidations
    || (deliveries >= limits.breakerMinDeliveries && invalidations as real > limits.breakerShare(deliveries))
  }

  /** Each of the two limits opens the breaker, and nothing else. */
  lemma BreakerOpenIff(invalidations: nat, deliveries: nat, limits: Limits)
    ensures invalidations > limits.breakerMaxInvalidations ==> BreakerOpen(invalidations, deliveries, limits)
    ensures deliveries >= limits.breakerMinDeliveries && invalidations as real > limits.breakerShare(deliveries) ==>
      BreakerOpen(invalidations, deliveries, limits)
    ensures invalidations <= limits.breakerMaxInvalidations && deliveries < limits.breakerMinDeliveries ==>
      !BreakerOpen(invalidations, deliveries, limits)
    ensures invalidations <= limits.breakerMaxInvalidations && invalidations as real <= limits.breakerShare(deliveries)
      ==> !BreakerOpen(invalidations, deliveries, limits)
  {
  }

  // --- One push -----------------------------------------------------------------------------

  datatype Vapid = Verified | Unauthorized | Forbidden

  datatype BodyCheck = Fits | TooLarge | Malformed

  /** What the handler finds of a body, once the headers are good. */
  function CheckBody(body: Bytes): BodyCheck {
    if |body| > MAX_PUSH_BODY_BYTES then TooLarge
    else if WebPush.Aes128gcmProblem(body).Some? then Malformed
    else Fits
  }

  /** A decoded request. */
  datatype Request = Request(
    vapid: Vapid,
    encodingOk: bool,
    ttl: Option<nat>,
    urgencyOk: bool,
    topicOk: bool,
    body: Bytes)

  datatype Outcome =
    | Delivered
    | DeviceInvalid(expired: bool)
    | Throttled(seconds: nat)
    | Unavailable(after: Option<nat>)
    | NotAccepted

  datatype Response = Response(status: nat, retryAfter: Option<nat>, ttl: Option<nat>)

  function Plain(status: nat): Response { Response(status, None, None) }

  function Retry(status: nat, seconds: nat): Response { Response(status, Some(seconds), None) }

  /** The subscription and device behind an endpoint. */
  ghost predicate Target(db: Db, endpoint: string, device: string) {
    device in db.devices && exists s :: s in db.subs && db.subs[s].endpoint == endpoint && db.subs[s].device == device
  }

  /** The refusals before admission. */
  function Refusal(d: Device, request: Request): Option<nat> {
    if request.vapid.Unauthorized? then Some(401)
    else if request.vapid.Forbidden? then Some(403)
    else if !Active(d) then Some(410)
    else if !request.encodingOk then Some(415)
    else if request.ttl.None? || !request.urgencyOk || !request.topicOk then Some(400)
    else
      match CheckBody(request.body)
      case TooLarge => Some(413)
      case Malformed => Some(400)
      case Fits => None
  }

  /** The body is one aes128gcm record of a 65-octet key id (RFC 8291 section 4), of
      2800 octets at most. */
  ghost predicate OneRecord(body: Bytes) {
    && 103 <= |body| <= 2800 && body[20] == 65
    && 18 <= FromBigEndian(body, 16, 20) && |body| <= FromBigEndian(body, 16, 20) + 86
  }

  ghost predicate HeadersOk(request: Request) {
    request.encodingOk && request.ttl.Some? && request.urgencyOk && request.topicOk
  }

  /** Nothing is wrong with this request to an active device. */
  ghost predicate InOrder(d: Device, request: Request) {
    && request.vapid.Verified? && d.invalidatedAt.None? && HeadersOk(request) && OneRecord(request.body)
  }

  /** The answer to a request that is not: who asks comes first, then the device,
      the headers and the body. */
  ghost predicate Refused(d: Device, request: Request, r: Response) {
    && (request.vapid.Unauthorized? ==> r == Plain(401))
    && (request.vapid.Forbidden? ==> r == Plain(403))
    && (request.vapid.Verified? && d.invalidatedAt.Some? ==> r == Plain(410))
    && (request.vapid.Verified? && d.invalidatedAt.None? && !request.encodingOk ==> r == Plain(415))
    && (request.vapid.Verified? && d.invalidatedAt.None? && request.encodingOk && !HeadersOk(request) ==>
          r == Plain(400))
    && (request.vapid.Verified? && d.invalidatedAt.None? && HeadersOk(request) && |request.body| > 2800 ==>
          r == Plain(413))
    && (request.vapid.Verified? && d.invalidatedAt.None? && HeadersOk(request) && |request.body| <= 2800 ==>
          r == Plain(400))
  }

  /** The answer to a message sent, from what the platform said. */
  ghost predicate Replied(request: Request, outcome: Outcome, limits: Limits, r: Response) {
    match outcome
    case Delivered =>
      && r.status == 201 && r.retryAfter.None? && r.ttl.Some? && request.ttl.Some?
      && r.ttl.value <= request.ttl.value && r.ttl.value <= limits.maxTtlSeconds
      && (r.ttl == request.ttl || r.ttl.value == limits.maxTtlSeconds)
    case DeviceInvalid(_) => r == Plain(410) || r == Plain(502) || r == Retry(503, 5)
    case Throttled(seconds) => r == Retry(429, seconds)
    case Unavailable(after) => r == Retry(503, if after.Some? then after.value else 60)
    case NotAccepted => r == Plain(502)
  }

  /** The answer to a request in order, by whether it was admitted. */
  ghost predicate Handled(allowed: bool, configured: bool, request: Request, outcome: Outcome, now: nat,
                          limits: Limits, r: Response) {
    if !allowed then r == Retry(429, 60 - now % 60)
    else if !configured then r == Retry(503, 3600)
    else Replied(request, outcome, limits, r)
  }

  lemma RefusalIs(d: Device, request: Request)
    ensures Refusal(d, request).None? <==> InOrder(d, request)
    ensures Refusal(d, request).Some? ==> Refused(d, request, Plain(Refusal(d, request).value))
  {
  }

  /** Nothing but the body can be wrong with this request. */
  ghost predicate OnlyBody(d: Device, request: Request) {
    && request.vapid.Verified? && Active(d) && request.encodingOk
    && request.ttl.Some? && request.urgencyOk && request.topicOk
  }

  lemma RefusalOfBody(d: Device, request: Request, one: bool)
    requires OnlyBody(d, request) && (WebPush.Aes128gcmProblem(request.body).None? <==> one)
    ensures Refusal(d, request) ==
      if |request.body| > MAX_PUSH_BODY_BYTES then Some(413) else if one then None else Some(400)
  {
  }

  /** What an application server encrypts is refused for its body exactly when it is
      longer than 2697 octets, or does not fit the record size it names. */
  lemma EncryptedFitsIff(c: WebPush.Crypto, uaPublic: Bytes, auth: Bytes, plaintext: Bytes, salt: Bytes,
                         senderPrivate: Bytes, recordSize: nat, d: Device, request: Request)
    requires WebPush.Lawful(c) && |salt| == 16
    requires request.body == WebPush.Encrypted(c, uaPublic, auth, plaintext, salt, senderPrivate, recordSize)
    requires OnlyBody(d, request)
    ensures Refusal(d, request) ==
      if |plaintext| > 2697 then Some(413)
      else if recordSize % 0x1_0000_0000 < Max(18, |plaintext| + 17) then Some(400)
      else None
  {
    WebPush.RelayAcceptsIff(c, uaPublic, auth, plaintext, salt, senderPrivate, recordSize);
    RefusalOfBody(d, request, recordSize % 0x1_0000_0000 >= Max(18, |plaintext| + 17));
  }

  datatype Pushed = Pushed(devices: Devices, rows: Rows, response: Response)

  /** A rejection the breaker sees: of a device that was delivered to before. */
  predicate Guarded(d: Device, expired: bool) {
    !expired && d.deliveredAt.Some?
  }

  function Guards(d: Device, outcome: Outcome): nat {
    if outcome.DeviceInvalid? && Guarded(d, outcome.expired) then 1 else 0
  }

  /** A rejected token, when nothing else acts meanwhile. */
  function Answered(devices: Devices, rows: Rows, id: string, expired: bool, now: nat, limits: Limits): Pushed
    requires id in devices
  {
    var d := devices[id];
    var rows' := if Guarded(d, expired) then Bump(rows, Invalidations(d.platform), now, limits) else rows;
    if Guarded(d, expired)
      && BreakerOpen(Count(rows', Invalidations(d.platform), now, limits),
                     Count(rows', Deliveries(d.platform), now, limits), limits)
    then Pushed(devices, rows', Plain(502))
    else Pushed(Invalidated(devices, id, d.token, now), rows', Plain(410))
  }

  /** A rejected device is answered 502 and left alone exactly when it was delivered to
      before and this rejection takes the window over one of the two limits; any other
      is invalidated and answered 410. */
  lemma RejectionAnswered(devices: Devices, rows: Rows, id: string, expired: bool, now: nat, limits: Limits)
    requires id in devices && devices[id].invalidatedAt.None?
    ensures
      var d := devices[id];
      var invalidations := Count(rows, Invalidations(d.platform), now, limits) + 1;
      var deliveries := Count(rows, Deliveries(d.platform), now, limits);
      var r := Answered(devices, rows, id, expired, now, limits);
      if !expired && d.deliveredAt.Some? &&
         (|| invalidations > limits.breakerMaxInvalidations
          || (deliveries >= limits.breakerMinDeliveries && invalidations as real > limits.breakerShare(deliveries)))
      then r.response == Plain(502) && r.devices == devices
      else r.response == Plain(410) && r.devices == devices[id := d.(invalidatedAt := Some(now), updatedAt := now)]
  {
  }

  /** At most one write a day. */
  predicate Due(d: Device, now: nat) {
    d.deliveredAt.None? || now - d.deliveredAt.value >= DAY
  }

  function AfterDelivery(devices: Devices, id: string, d: Device, now: nat): Devices {
    if Due(d, now) then RelayStore.Delivered(devices, id, now) else devices
  }

  /** What follows the platform's answer, when nothing else acts meanwhile. */
  function AfterAnswer(devices: Devices, rows: Rows, id: string, request: Request, outcome: Outcome, now: nat,
                       limits: Limits): Pushed
    requires id in devices && request.ttl.Some?
  {
    var d := devices[id];
    match outcome
    case Delivered =>
      Pushed(AfterDelivery(devices, id, d, now), rows,
             Response(201, None, Some(Min(request.ttl.value, limits.maxTtlSeconds))))
    case DeviceInvalid(expired) => Answered(devices, rows, id, expired, now, limits)
    case Throttled(seconds) => Pushed(devices, rows, Retry(429, seconds))
    case Unavailable(seconds) => Pushed(devices, rows, Retry(503, if seconds.Some? then seconds.value else 60))
    case NotAccepted => Pushed(devices, rows, Plain(502))
  }

  /** A message that is sent counts for the device and for its platform. */
  function Forwarded(rows: Rows, id: string, p: Platform, now: nat, limits: Limits): Rows {
    Bump(Bump(rows, PushDevice(id), now, limits), Deliveries(p), now, limits)
  }

  /** An admitted message is sent, if the platform has a sender. */
  function SendAfter(devices: Devices, rows: Rows, id: string, request: Request, outcome: Outcome, configured: bool,
                     now: nat, limits: Limits): Pushed
    requires id in devices && request.ttl.Some?
  {
    if !configured then Pushed(devices, rows, Retry(503, 3600))
    else
      AfterAnswer(devices, Forwarded(rows, id, devices[id].platform, now, limits), id, request, outcome, now, limits)
  }

  /** A request in order is sent if it is admitted. */
  function AdmitAfter(devices: Devices, rows: Rows, endpoint: string, id: string, request: Request, outcome: Outcome,
                      configured: bool, now: nat, limits: Limits): Pushed
    requires id in devices && request.ttl.Some?
  {
    var admission := Admitted(rows, endpoint, id, now, limits);
    if !admission.allowed then Pushed(devices, admission.rows, Retry(429, SecondsLeft(now, MINUTE)))
    else SendAfter(devices, admission.rows, id, request, outcome, configured, now, limits)
  }

  /** A whole push to device `id`, when nothing else acts meanwhile. */
  function PushAfter(devices: Devices, rows: Rows, endpoint: string, id: string, request: Request, outcome: Outcome,
                     configured: bool, now: nat, limits: Limits): Pushed
    requires id in devices
  {
    var d := devices[id];
    var refusal := Refusal(d, request);
    if refusal.Some? then Pushed(devices, rows, Plain(refusal.value))
    else AdmitAfter(devices, rows, endpoint, id, request, outcome, configured, now, limits)
  }

  // --- The handler, interleaved ----------------------------------------------------------------

  /** At instant `i` the endpoint's device (found at `j`) was invalid; if that is
      later than the lookup, it still held the very token looked up. */
  ghost predicate GoneAt(log: seq<Db>, j: nat, i: nat, endpoint: string, id: string)
    requires j <= i < |log|
  {
    && Target(log[j], endpoint, id)
    && id in log[i].devices && !Active(log[i].devices[id])
    && (i != j ==> log[i].devices[id].token == log[j].devices[id].token)
  }

  ghost predicate GoneSince(log: seq<Db>, j: nat, from: nat, endpoint: string, id: string) {
    exists i: nat :: j <= i && from <= i < |log| && GoneAt(log, j, i, endpoint, id)
  }

  /** `admit`'s decision, on the counters after two of its batches: `tallies[i]` is
      what counted the request, `tallies[k]` what counted the endpoint active, when
      the request was its first of the minute. */
  ghost predicate Decided(tallies: seq<Rows>, i: nat, k: nat, endpoint: string, device: string, allowed: bool,
                          now: nat, limits: Limits)
    requires 0 < i <= k < |tallies|
  {
    var count := Count(tallies[i], PushEndpoint(endpoint), now, limits);
    && tallies[i] == Bump(tallies[i - 1], PushEndpoint(endpoint), now, limits)
    && (if count == 1 <= limits.endpointPerMinute
        then i < k && tallies[k] == Bump(tallies[k - 1], PushDeviceActive(device), now, limits)
        else k == i)
    && allowed == Within(count, Count(tallies[i], PushDevice(device), now, limits),
                         Count(tallies[k], PushDeviceActive(device), now, limits), limits)
  }

  /** At the limits: the endpoint's own, then the device's with a fair share. */
  predicate Within(endpointCount: nat, deviceCount: nat, active: nat, limits: Limits) {
    && endpointCount <= limits.endpointPerMinute
    && !(deviceCount >= limits.devicePerMinute && endpointCount > FairShare(limits, active))
  }

  /** Within the request an admission allowed it, and the message was counted. */
  ghost predicate Sent(tallies: seq<Rows>, from: nat, endpoint: string, id: string, p: Platform,
                       now: nat, limits: Limits) {
    exists i: nat, k: nat, m: nat ::
      && 0 < from <= i <= k < m < |tallies|
      && Decided(tallies, i, k, endpoint, id, true, now, limits)
      && tallies[m] == Forwarded(tallies[m - 1], id, p, now, limits)
  }

  /** The request was counted, and its counts are over a limit. */
  ghost predicate TurnedAway(tallies: seq<Rows>, from: nat, endpoint: string, id: string, now: nat, limits: Limits) {
    exists i: nat, k: nat ::
      0 < from <= i <= k < |tallies| && Decided(tallies, i, k, endpoint, id, false, now, limits)
  }

  /** What the request is answered, and why, by the counts since `from`. */
  ghost predicate AnswerFits(tallies: seq<Rows>, from: nat, endpoint: string, id: string, d: Device, request: Request,
                             outcome: Outcome, allowed: bool, configured: bool, now: nat, limits: Limits, r: Response) {
    if !InOrder(d, request) then !allowed && Refused(d, request, r)
    else
      && Handled(allowed, configured, request, outcome, now, limits, r)
      && (allowed && configured ==> Sent(tallies, from, endpoint, id, d.platform, now, limits))
      && (!allowed ==> TurnedAway(tallies, from, endpoint, id, now, limits))
  }

  /** Nothing changed but possibly device `id`, and only if it was active and held
      `token`. */
  ghost predicate RejectsOnly(before: Db, after: Db, id: string, token: string) {
    && after.subs == before.subs && after.devices.Keys == before.devices.Keys
    && forall other :: other in before.devices && after.devices[other] != before.devices[other] ==>
         other == id && Active(before.devices[other]) && before.devices[other].token == token
  }

  /** Instant `m`: the one write on the tables that the outcome calls for, the
      delivery or the rejection of the token that was looked up and sent. A rejection
      never touches a device whose current token is another. */
  ghost predicate Written(log: seq<Db>, m: nat, outcome: Outcome, id: string, token: string, now: nat)
    requires 0 < m < |log|
  {
    var before, after := log[m - 1], log[m];
    && after.subs == before.subs
    && if outcome.Delivered? then after.devices == RelayStore.Delivered(before.devices, id, now)
       else after.devices == Invalidated(before.devices, id, token, now) && RejectsOnly(before, after, id, token)
  }

  lemma RejectionSpares(before: Db, id: string, token: string, now: nat)
    ensures RejectsOnly(before, Db(Invalidated(before.devices, id, token, now), before.subs), id, token)
  {
  }

  lemma WrittenLast(log: seq<Db>, after: Db, outcome: Outcome, id: string, token: string, now: nat)
    requires log != [] && after.subs == log[|log| - 1].subs
    requires after.devices ==
      if outcome.Delivered? then RelayStore.Delivered(log[|log| - 1].devices, id, now)
      else Invalidated(log[|log| - 1].devices, id, token, now)
    ensures Written(log + [after], |log|, outcome, id, token, now)
  {
    RejectionSpares(log[|log| - 1], id, token, now);
  }

  function Instants(m: Option<nat>): seq<nat> {
    if m.Some? then [m.value] else []
  }

  /** What the handler wrote after the platform's answer, since log entry `from`: it
      writes when it accepts a delivery that is due, and when it rejects a token
      with the breaker closed. */
  ghost predicate Concluded(log: seq<Db>, from: nat, r: Response, m: Option<nat>, id: string, d: Device,
                            outcome: Outcome, now: nat)
  {
    && (m.Some? <==>
          || (outcome.Delivered? && (d.deliveredAt.None? || now - d.deliveredAt.value >= 86_400))
          || (outcome.DeviceInvalid? && r.status != 502))
    && (m.Some? ==> 0 < from <= m.value < |log| && Written(log, m.value, outcome, id, d.token, now))
    && (outcome.Delivered? <==> r.status == 201)
    && (outcome.DeviceInvalid? ==> r.status in {410, 502, 503})
    && (r.status == 410 ==> outcome.DeviceInvalid?)
    && (outcome.DeviceInvalid? && r.status == 503 ==> Spared(log, m.value, id, d.token))
  }

  /** The write at `m` found the device without the rejected token or not active, and
      at some instant since it was not an invalid device with that token. */
  ghost predicate Spared(log: seq<Db>, m: nat, id: string, token: string) {
    && 0 < m < |log| && !ActiveWith(log[m - 1], id, token)
    && exists i: nat :: m <= i < |log| && !InvalidWith(log[i], id, token)
  }

  ghost predicate ActiveWith(db: Db, id: string, token: string) {
    id in db.devices && db.devices[id].invalidatedAt.None? && db.devices[id].token == token
  }

  ghost predicate InvalidWith(db: Db, id: string, token: string) {
    id in db.devices && db.devices[id].invalidatedAt.Some? && db.devices[id].token == token
  }

  /** What a whole request wrote: nothing, or what its answer calls for. */
  ghost predicate Served(log: seq<Db>, from: nat, r: Response, m: Option<nat>, id: string, d: Device,
                         outcome: Outcome, now: nat)
  {
    && (m.Some? ==> 0 < from <= m.value < |log| && Written(log, m.value, outcome, id, d.token, now))
    && (m.Some? ==> if outcome.Delivered? then r.status == 201 && Due(d, now)
                    else outcome.DeviceInvalid? && r.status in {410, 503})
    && (r.status == 201 && Due(d, now) ==> m.Some?)
    && (r.status == 410 && Active(d) ==> m.Some?)
    && (m.Some? && r.status == 503 ==> Spared(log, m.value, id, d.token))
  }

  class Relay {
    const store: Store
    const counters: D1Counters<Bucket>
    const limits: Limits
    const configured: Platform -> bool
    /** Every state of the tables since the relay started. */
    ghost var log: seq<Db>
    /** Every state of the counters. */
    ghost var tallies: seq<Rows>
    /** The instants of the batches that handlers of this class ran on the tables. */
    ghost var own: seq<nat>
    /** How many batches they ran on the counters. */
    ghost var counted: nat
    /** How many batches of other handlers came in between, on the tables and on the
        counters. */
    ghost var otherWrites: nat
    ghost var otherCounts: nat
    /** How often another handler ran in between. */
    ghost var moved: nat

    constructor (store: Store, counters: D1Counters<Bucket>, limits: Limits, configured: Platform -> bool)
      requires store.Valid() && forall b :: counters.width(b) == WidthOf(b, limits)
      ensures Valid()
    {
      this.store, this.counters, this.limits, this.configured := store, counters, limits, configured;
      log, tallies, moved := [store.Tables()], [counters.rows], 0;
      own, counted, otherWrites, otherCounts := [], 0, 0, 0;
    }

    ghost predicate Valid()
      reads this, store, counters
    {
      && store.Valid()
      && |log| > 0 && log[|log| - 1] == store.Tables()
      && |tallies| > 0 && tallies[|tallies| - 1] == counters.rows
      && |log| == 1 + |own| + otherWrites && |tallies| == 1 + counted + otherCounts
      && forall b :: counters.width(b) == WidthOf(b, limits)
    }

    twostate predicate Later()
      reads this
    {
      old(log) <= log && old(tallies) <= tallies && old(moved) <= moved
    }

    /** The handler itself ran no batch on the tables, and so many on the counters. */
    twostate predicate Ran(counts: nat)
      reads this
    {
      own == old(own) && counted == old(counted) + counts
    }

    /** The handler waits: other handlers run any number of batches. */
    method Others()
      requires Valid()
      modifies this, store, counters
      ensures Valid() && Later() && Ran(0)
      ensures moved == old(moved) ==>
        && log == old(log) && store.Tables() == old(store.Tables())
        && tallies == old(tallies) && counters.rows == old(counters.rows)
    {
    }

    /** One operation of a batch on the counters. */
    method Increment(b: Bucket, now: nat) returns (count: nat)
      requires counters.width(b) == WidthOf(b, limits)
      modifies counters
      ensures counters.rows == Bump(old(counters.rows), b, now, limits) && count == Count(counters.rows, b, now, limits)
    {
      count := counters.RunOne(Op(b, limits, true), now);
    }

    method Read(b: Bucket, now: nat) returns (count: nat)
      requires counters.width(b) == WidthOf(b, limits)
      modifies counters
      ensures counters.rows == old(counters.rows) && count == Count(counters.rows, b, now, limits)
    {
      count := counters.RunOne(Op(b, limits, false), now);
    }

    /** One batch of counter operations. */
    method CountPush(endpoint: string, device: string, now: nat)
      returns (endpointCount: nat, deviceCount: nat, active: nat)
      requires Valid()
      modifies this`tallies, this`counted, counters
      ensures Valid() && tallies == old(tallies) + [counters.rows] && counted == old(counted) + 1
      ensures counters.rows == Bump(old(counters.rows), PushEndpoint(endpoint), now, limits)
      ensures endpointCount == Count(counters.rows, PushEndpoint(endpoint), now, limits)
      ensures deviceCount == Count(counters.rows, PushDevice(device), now, limits)
      ensures active == Count(counters.rows, PushDeviceActive(device), now, limits)
    {
      endpointCount := Increment(PushEndpoint(endpoint), now);
      deviceCount := Read(PushDevice(device), now);
      active := Read(PushDeviceActive(device), now);
      tallies, counted := tallies + [counters.rows], counted + 1;
    }

    /** The first message of an endpoint in the minute counts it active. */
    method CountActive(device: string, now: nat) returns (active: nat)
      requires Valid()
      modifies this, store, counters
      ensures Valid() && Later() && Ran(1) && |tallies| > old(|tallies|)
      ensures counters.rows == Bump(tallies[|tallies| - 2], PushDeviceActive(device), now, limits)
      ensures active == Count(counters.rows, PushDeviceActive(device), now, limits)
      ensures moved == old(moved) ==>
        && log == old(log) && store.Tables() == old(store.Tables())
        && tallies == old(tallies) + [counters.rows]
    {
      Others();
      active := Increment(PushDeviceActive(device), now);
      tallies, counted := tallies + [counters.rows], counted + 1;
    }

    /** Per-endpoint limit, then a per-device ceiling with a fair share. Whatever
        others do meanwhile, the decision is on counts that the handler's own batches
        `i` and the last one read. */
    method Admit(endpoint: string, device: string, now: nat) returns (allowed: bool, retryAfter: nat, ghost i: nat)
      requires Valid()
      modifies this, store, counters
      ensures Valid() && Later() && old(|tallies|) <= i < |tallies|
      ensures Ran(if i == |tallies| - 1 then 1 else 2)
      ensures retryAfter == SecondsLeft(now, MINUTE)
      ensures Decided(tallies, i, |tallies| - 1, endpoint, device, allowed, now, limits)
      ensures moved == old(moved) ==>
        && log == old(log) && store.Tables() == old(store.Tables())
        && Admission(counters.rows, allowed) == Admitted(old(counters.rows), endpoint, device, now, limits)
    {
      retryAfter := SecondsLeft(now, MINUTE);
      allowed, i := Decide(endpoint, device, now);
      if |tallies| <= i + 2 { DecidedUndisturbed(tallies, i, endpoint, device, allowed, now, limits); }
    }

    /** The decision, from one batch that counts the request, and one that counts the
        endpoint active when it is its first. */
    method Decide(endpoint: string, device: string, now: nat) returns (allowed: bool, ghost i: nat)
      requires Valid()
      modifies this, store, counters
      ensures Valid() && Later() && old(|tallies|) <= i < |tallies|
      ensures Ran(if i == |tallies| - 1 then 1 else 2)
      ensures Decided(tallies, i, |tallies| - 1, endpoint, device, allowed, now, limits)
      ensures moved == old(moved) ==>
        && log == old(log) && store.Tables() == old(store.Tables())
        && |tallies| <= i + 2 && tallies[i - 1] == old(counters.rows)
    {
      Others();
      var endpointCount, deviceCount, active := CountPush(endpoint, device, now);
      i := |tallies| - 1;
      if endpointCount == 1 <= limits.endpointPerMinute {
        active := CountActive(device, now);
      }
      allowed := Within(endpointCount, deviceCount, active, limits);
    }

    /** Counts one rejection, and says whether the breaker is open, on the counts of
        that very batch. */
    method Breaker(p: Platform, now: nat) returns (open: bool)
      requires Valid()
      modifies this, store, counters
      ensures Valid() && Later() && Ran(1) && |tallies| > old(|tallies|)
      ensures counters.rows == Bump(tallies[|tallies| - 2], Invalidations(p), now, limits)
      ensures
        var invalidations := Count(counters.rows, Invalidations(p), now, limits);
        var deliveries := Count(counters.rows, Deliveries(p), now, limits);
        open <==>
          || invalidations > limits.breakerMaxInvalidations
          || (deliveries >= limits.breakerMinDeliveries && invalidations as real > limits.breakerShare(deliveries))
      ensures moved == old(moved) ==>
        && log == old(log) && store.Tables() == old(store.Tables())
        && counters.rows == Bump(old(counters.rows), Invalidations(p), now, limits)
    {
      Others();
      var invalidations := Increment(Invalidations(p), now);
      var deliveries := Read(Deliveries(p), now);
      tallies, counted := tallies + [counters.rows], counted + 1;
      open := BreakerOpen(invalidations, deliveries, limits);
    }

    /** The platform rejected the token: breaker, guarded invalidation, and the
        answer. `j` is the instant of the lookup that found device `id` as `d`, `m`
        that of the invalidation, run unless the breaker is open. */
    method Rejected(endpoint: string, id: string, d: Device, expired: bool, now: nat, ghost j: nat)
      returns (r: Response, ghost m: Option<nat>)
      requires Valid() && j < |log| && Target(log[j], endpoint, id) && log[j].devices[id] == d && Active(d)
      modifies this, store, counters
      ensures Valid() && Later()
      ensures m.None? <==> r.status == 502
      ensures m.Some? ==>
        old(|log|) <= m.value < |log| && Written(log, m.value, DeviceInvalid(expired), id, d.token, now)
      ensures own == old(own) + Instants(m)
      ensures counted == old(counted) + if Guarded(d, expired) then 1 else 0
      ensures r.status == 502 ==> !expired && d.deliveredAt.Some?
      ensures r.status == 410 ==> GoneSince(log, j, old(|log|) - 1, endpoint, id)
      ensures r == Plain(410) || r == Plain(502) || r == Retry(503, 5)
      ensures r.status == 503 ==> Spared(log, m.value, id, d.token)
      ensures moved == old(moved) && old(store.devices) == log[j].devices && id in old(store.devices) ==>
        Pushed(store.devices, counters.rows, r) ==
        Answered(old(store.devices), old(counters.rows), id, expired, now, limits)
    {
      var open := false;
      if Guarded(d, expired) { open := Breaker(d.platform, now); }
      if open {
        r, m := Plain(502), None;
      } else {
        ghost var at;
        r, at := Invalidate(endpoint, id, d, now, j);
        m := Some(at);
      }
    }

    /** Marks the device invalid while it still holds the token sent; gone if this
        or another push did. */
    method Invalidate(endpoint: string, id: string, d: Device, now: nat, ghost j: nat)
      returns (r: Response, ghost m: nat)
      requires Valid() && j < |log| && Target(log[j], endpoint, id) && log[j].devices[id] == d && Active(d)
      modifies this, store, counters
      ensures Valid() && Later() && counted == old(counted)
      ensures old(|log|) <= m < |log| && Written(log, m, DeviceInvalid(false), id, d.token, now)
      ensures own == old(own) + [m]
      ensures r.status == 410 ==> GoneSince(log, j, old(|log|) - 1, endpoint, id)
      ensures r == Plain(410) || r == Retry(503, 5)
      ensures r.status == 503 ==> Spared(log, m, id, d.token)
      ensures moved == old(moved) && id in old(store.devices) && old(store.devices)[id] == d ==>
        && counters.rows == old(counters.rows) && r == Plain(410)
        && store.devices == Invalidated(old(store.devices), id, d.token, now)
    {
      var gone;
      gone, m := Reject(id, d.token, now);
      if gone {
        assert GoneAt(log, j, |log| - 1, endpoint, id);
      } else {
        gone := GoneMeanwhile(endpoint, id, d, j);
      }
      r := if gone then Plain(410) else Retry(503, 5);
    }

    /** The batch itself: guarded by the token and by not being invalid yet. */
    method Reject(id: string, token: string, now: nat) returns (changed: bool, ghost m: nat)
      requires Valid()
      modifies this, store, counters
      ensures Valid() && Later() && counted == old(counted) && own == old(own) + [m]
      ensures old(|log|) <= m == |log| - 1 && Written(log, m, DeviceInvalid(false), id, token, now)
      ensures changed ==> id in store.devices && !Active(store.devices[id]) && store.devices[id].token == token
      ensures changed <==> ActiveWith(log[m - 1], id, token)
      ensures moved == old(moved) ==>
        && counters.rows == old(counters.rows)
        && store.devices == Invalidated(old(store.devices), id, token, now)
        && (changed <==>
              id in old(store.devices) && old(store.devices)[id].token == token && Active(old(store.devices)[id]))
    {
      Others();
      changed := store.InvalidateDevice(id, token, now);
      m := |log|;
      WrittenLast(log, store.Tables(), DeviceInvalid(false), id, token, now);
      log, own := log + [store.Tables()], own + [m];
    }

    /** Whether another push invalidated the same token first. */
    method GoneMeanwhile(endpoint: string, id: string, d: Device, ghost j: nat) returns (gone: bool)
      requires Valid() && j < |log| && Target(log[j], endpoint, id) && log[j].devices[id] == d && Active(d)
      modifies this, store, counters
      ensures Valid() && Later() && Ran(0)
      ensures gone ==> GoneAt(log, j, |log| - 1, endpoint, id)
      ensures gone <==> InvalidWith(log[|log| - 1], id, d.token)
    {
      Others();
      gone := id in store.devices && !Active(store.devices[id]) && store.devices[id].token == d.token;
    }

    /** The delivery was accepted: one batch writes it if the device, as found, had
        none for a day, and nothing is done otherwise. */
    method Accepted(id: string, d: Device, now: nat) returns (ghost m: Option<nat>)
      requires Valid()
      modifies this, store, counters
      ensures Valid() && Later() && counted == old(counted)
      ensures m.Some? <==> Due(d, now)
      ensures own == old(own) + Instants(m)
      ensures m.Some? ==>
        old(|log|) <= m.value < |log| && Written(log, m.value, Outcome.Delivered, id, d.token, now)
      ensures m.None? ==> log == old(log) && tallies == old(tallies) && moved == old(moved)
      ensures moved == old(moved) ==> counters.rows == old(counters.rows) && store.subs == old(store.subs)
      ensures moved == old(moved) ==> store.devices == AfterDelivery(old(store.devices), id, d, now)
    {
      m := None;
      if Due(d, now) {
        ghost var at := Deliver(id, d.token, now);
        m := Some(at);
      }
    }

    /** The batch itself. */
    method Deliver(id: string, token: string, now: nat) returns (ghost m: nat)
      requires Valid()
      modifies this, store, counters
      ensures Valid() && Later() && counted == old(counted) && own == old(own) + [m]
      ensures old(|log|) <= m < |log| && Written(log, m, Outcome.Delivered, id, token, now)
      ensures moved == old(moved) ==>
        && counters.rows == old(counters.rows) && store.subs == old(store.subs)
        && store.devices == RelayStore.Delivered(old(store.devices), id, now)
    {
      Others();
      store.RecordDelivery(id, now);
      m := |log|;
      WrittenLast(log, store.Tables(), Outcome.Delivered, id, token, now);
      log, own := log + [store.Tables()], own + [m];
    }

    /** Admission passed: send the message, if the platform has a sender. */
    method Send(endpoint: string, id: string, d: Device, request: Request, outcome: Outcome, now: nat, ghost j: nat,
                ghost i: nat, ghost from: nat, ghost since: nat)
      returns (r: Response, ghost m: Option<nat>)
      requires Valid() && request.ttl.Some? && j < from <= |log| && 0 < since <= i
      requires 0 < i < |tallies| && Decided(tallies, i, |tallies| - 1, endpoint, id, true, now, limits)
      requires j < |log| && Target(log[j], endpoint, id) && log[j].devices[id] == d && Active(d)
      modifies this, store, counters
      ensures Valid() && Later() && Served(log, from, r, m, id, d, outcome, now)
      ensures Handled(true, configured(d.platform), request, outcome, now, limits, r)
      ensures own == old(own) + Instants(m)
      ensures configured(d.platform) ==> Sent(tallies, since, endpoint, id, d.platform, now, limits)
      ensures r.status == 410 ==> outcome.DeviceInvalid? && GoneSince(log, j, j, endpoint, id)
      ensures r.status != 404
      ensures moved == old(moved) && old(store.devices) == log[j].devices && id in old(store.devices) ==>
        Pushed(store.devices, counters.rows, r) ==
        SendAfter(old(store.devices), old(counters.rows), id, request, outcome, configured(d.platform), now, limits)
    {
      if !configured(d.platform) {
        r, m := Retry(503, 3600), None;
      } else {
        r, m := Forward(endpoint, id, d, request, outcome, now, j, i);
        ConcludedServes(log, old(|log|), r, m, id, d, outcome, now);
        ServedSince(log, from, old(|log|), r, m, id, d, outcome, now);
        SentSince(tallies, since, i, endpoint, id, d.platform, now, limits);
      }
    }

    /** Counts the message, sends it, and acts on the answer. */
    method Forward(endpoint: string, id: string, d: Device, request: Request, outcome: Outcome, now: nat, ghost j: nat,
                   ghost i: nat)
      returns (r: Response, ghost m: Option<nat>)
      requires Valid() && request.ttl.Some?
      requires 0 < i < |tallies| && Decided(tallies, i, |tallies| - 1, endpoint, id, true, now, limits)
      requires j < |log| && Target(log[j], endpoint, id) && log[j].devices[id] == d && Active(d)
      modifies this, store, counters
      ensures Valid() && Later()
      ensures Sent(tallies, i, endpoint, id, d.platform, now, limits)
      ensures Concluded(log, old(|log|), r, m, id, d, outcome, now) && Replied(request, outcome, limits, r)
      ensures own == old(own) + Instants(m) && counted == old(counted) + 1 + Guards(d, outcome)
      ensures r.status == 410 ==>
        outcome.DeviceInvalid? && GoneSince(log, j, old(|log|) - 1, endpoint, id)
      ensures r.status != 404
      ensures moved == old(moved) && old(store.devices) == log[j].devices && id in old(store.devices) ==>
        Pushed(store.devices, counters.rows, r) ==
        AfterAnswer(old(store.devices), Forwarded(old(counters.rows), id, d.platform, now, limits),
                    id, request, outcome, now, limits)
    {
      ghost var admitted := tallies;
      CountForward(id, d.platform, now);
      ghost var c := |tallies| - 1;
      r, m := Conclude(endpoint, id, d, request, outcome, now, j);
      DecidedStays(admitted, tallies, i, |admitted| - 1, endpoint, id, true, now, limits);
      WasSent(tallies, i, |admitted| - 1, c, endpoint, id, d.platform, now, limits);
    }

    method CountForward(id: string, p: Platform, now: nat)
      requires Valid()
      modifies this, store, counters
      ensures Valid() && Later() && Ran(1) && |tallies| > old(|tallies|)
      ensures counters.rows == Forwarded(tallies[|tallies| - 2], id, p, now, limits)
      ensures moved == old(moved) ==>
        && log == old(log) && store.Tables() == old(store.Tables())
        && counters.rows == Forwarded(old(counters.rows), id, p, now, limits)
    {
      Others();
      CountSent(id, p, now);
    }

    method CountSent(id: string, p: Platform, now: nat)
      requires Valid()
      modifies this`tallies, this`counted, counters
      ensures Valid() && tallies == old(tallies) + [counters.rows] && counted == old(counted) + 1
      ensures counters.rows == Forwarded(old(counters.rows), id, p, now, limits)
    {
      var _ := Increment(PushDevice(id), now);
      var _ := Increment(Deliveries(p), now);
      tallies, counted := tallies + [counters.rows], counted + 1;
    }

    /** What follows the platform's answer. */
    method Conclude(endpoint: string, id: string, d: Device, request: Request, outcome: Outcome, now: nat, ghost j: nat)
      returns (r: Response, ghost m: Option<nat>)
      requires Valid() && request.ttl.Some?
      requires j < |log| && Target(log[j], endpoint, id) && log[j].devices[id] == d && Active(d)
      modifies this, store, counters
      ensures Valid() && Later() && Concluded(log, old(|log|), r, m, id, d, outcome, now)
      ensures Replied(request, outcome, limits, r)
      ensures own == old(own) + Instants(m) && counted == old(counted) + Guards(d, outcome)
      ensures r.status == 410 ==>
        outcome.DeviceInvalid? && GoneSince(log, j, old(|log|) - 1, endpoint, id)
      ensures r.status != 404
      ensures moved == old(moved) && old(store.devices) == log[j].devices && id in old(store.devices) ==>
        Pushed(store.devices, counters.rows, r) ==
        AfterAnswer(old(store.devices), old(counters.rows), id, request, outcome, now, limits)
    {
      Others();  // sender.send is in flight
      m := None;
      match outcome
      case Delivered =>
        m := Accepted(id, d, now);
        r := Response(201, None, Some(Min(request.ttl.value, limits.maxTtlSeconds)));
      case DeviceInvalid(expired) =>
        r, m := Rejected(endpoint, id, d, expired, now, j);
      case Throttled(seconds) =>
        r := Retry(429, seconds);
      case Unavailable(seconds) =>
        r := Retry(503, if seconds.Some? then seconds.value else 60);
      case NotAccepted =>
        r := Plain(502);
    }

    /** The lookup, true as it is answered. */
    method Find(endpoint: string) returns (target: Option<(string, Device)>)
      requires Valid()
      modifies this, store, counters
      ensures Valid() && Later() && Ran(0)
      ensures target.None? ==> forall id :: !Target(store.Tables(), endpoint, id)
      ensures target.Some? ==>
        Target(store.Tables(), endpoint, target.value.0) && store.devices[target.value.0] == target.value.1
      ensures moved == old(moved) ==>
        log == old(log) && store.Tables() == old(store.Tables()) && counters.rows == old(counters.rows)
    {
      Others();
      target := store.FindByEndpoint(endpoint);
    }

    /** POST /push/{endpoint}. `found` is the device looked up, at instant `j` of the
        request. A 404 is true then; a 410 is true then or later in the request,
        while the device held the token looked up; a 201 was admitted and counted.
        The handler itself writes the tables once at most, at instant `m`: a delivery,
        or the rejection of the very token looked up, which spares a device that holds
        another by then. Undisturbed, the handler does exactly `PushAfter`. */
    method HandlePush(endpoint: string, request: Request, outcome: Outcome, now: nat)
      returns (r: Response, ghost j: nat, ghost found: Option<(string, Device)>, ghost m: Option<nat>,
               ghost allowed: bool)
      requires Valid()
      modifies this, store, counters
      ensures Valid() && Later() && old(|log|) - 1 <= j < |log|
      ensures if found.None? then r == Plain(404) else r.status != 404
      ensures found.None? ==> (forall id :: !Target(log[j], endpoint, id)) && m.None? && Ran(0)
      ensures found.Some? ==>
        && Target(log[j], endpoint, found.value.0) && log[j].devices[found.value.0] == found.value.1
        && Served(log, old(|log|), r, m, found.value.0, found.value.1, outcome, now)
        && AnswerFits(tallies, old(|tallies|), endpoint, found.value.0, found.value.1, request, outcome, allowed,
                      configured(found.value.1.platform), now, limits, r)
        && (!InOrder(found.value.1, request) ==> Ran(0))
      ensures r.status == 410 ==>
        && GoneSince(log, j, j, endpoint, found.value.0)
        && (Active(found.value.1) ==> outcome.DeviceInvalid?)
      ensures own == old(own) + Instants(m) && (m.Some? ==> j < m.value)
      ensures m.Some? && outcome.DeviceInvalid? ==>
        RejectsOnly(log[m.value - 1], log[m.value], found.value.0, found.value.1.token)
      ensures moved == old(moved) ==>
        && log[j] == old(store.Tables())
        && if found.None? then store.Tables() == old(store.Tables())
           else Pushed(store.devices, counters.rows, r) ==
                PushAfter(old(store.devices), old(counters.rows), endpoint, found.value.0, request, outcome,
                          configured(found.value.1.platform), now, limits)
    {
      var target := Find(endpoint);
      j, found, m, allowed := |log| - 1, target, None, false;
      if target.None? {
        r := Plain(404);
      } else {
        var (id, d) := target.value;
        r, m, allowed := Serve(endpoint, id, d, request, outcome, now, j);
      }
    }

    /** The rest of the request, once the device is found. */
    method Serve(endpoint: string, id: string, d: Device, request: Request, outcome: Outcome, now: nat, ghost j: nat)
      returns (r: Response, ghost m: Option<nat>, ghost allowed: bool)
      requires Valid() && j == |log| - 1 && Target(log[j], endpoint, id) && log[j].devices[id] == d
      modifies this, store, counters
      ensures Valid() && Later() && Served(log, old(|log|), r, m, id, d, outcome, now)
      ensures AnswerFits(tallies, old(|tallies|), endpoint, id, d, request, outcome, allowed,
                         configured(d.platform), now, limits, r)
      ensures !InOrder(d, request) ==> Ran(0)
      ensures own == old(own) + Instants(m)
      ensures r.status == 410 && Active(d) ==> outcome.DeviceInvalid?
      ensures r.status == 410 ==> GoneSince(log, j, j, endpoint, id)
      ensures r.status != 404
      ensures moved == old(moved) ==>
        Pushed(store.devices, counters.rows, r) ==
        PushAfter(old(store.devices), old(counters.rows), endpoint, id, request, outcome,
                  configured(d.platform), now, limits)
    {
      m, allowed := None, false;
      var refusal := Refusal(d, request);
      RefusalIs(d, request);
      if refusal.Some? {
        assert !Active(d) ==> GoneAt(log, j, j, endpoint, id);
        r := Plain(refusal.value);
      } else {
        r, m, allowed := Admitting(endpoint, id, d, request, outcome, now, j);
      }
    }

    /** The request is in order: admission, then the message. */
    method Admitting(endpoint: string, id: string, d: Device, request: Request, outcome: Outcome, now: nat,
                     ghost j: nat)
      returns (r: Response, ghost m: Option<nat>, ghost allowed: bool)
      requires Valid() && j == |log| - 1 && Target(log[j], endpoint, id) && log[j].devices[id] == d
      requires Active(d) && request.ttl.Some?
      modifies this, store, counters
      ensures Valid() && Later() && Served(log, old(|log|), r, m, id, d, outcome, now)
      ensures Handled(allowed, configured(d.platform), request, outcome, now, limits, r)
      ensures own == old(own) + Instants(m)
      ensures r.status == 410 ==>
        outcome.DeviceInvalid? && GoneSince(log, j, j, endpoint, id)
      ensures allowed && configured(d.platform) ==>
        Sent(tallies, old(|tallies|), endpoint, id, d.platform, now, limits)
      ensures !allowed ==> TurnedAway(tallies, old(|tallies|), endpoint, id, now, limits)
      ensures r.status != 404
      ensures moved == old(moved) ==>
        Pushed(store.devices, counters.rows, r) ==
        AdmitAfter(old(store.devices), old(counters.rows), endpoint, id, request, outcome,
                   configured(d.platform), now, limits)
    {
      m := None;
      var admitted, retryAfter;
      ghost var i;
      admitted, retryAfter, i := Admit(endpoint, id, now);
      allowed := admitted;
      label admitted:
      if !admitted {
        r := Retry(429, retryAfter);
      } else {
        r, m := Send(endpoint, id, d, request, outcome, now, j, i, old(|log|), old(|tallies|));
        PrefixTransitive(old(log), old@admitted(log), log);
        PrefixTransitive(old(tallies), old@admitted(tallies), tallies);
      }
    }
  }

  /** With no other batch in between, the decision is `Admitted`. */
  lemma DecidedUndisturbed(tallies: seq<Rows>, i: nat, endpoint: string, device: string, allowed: bool,
                           now: nat, limits: Limits)
    requires 0 < i < |tallies| <= i + 2
    requires Decided(tallies, i, |tallies| - 1, endpoint, device, allowed, now, limits)
    ensures Admission(tallies[|tallies| - 1], allowed) == Admitted(tallies[i - 1], endpoint, device, now, limits)
  {
  }

  lemma PrefixTransitive<T>(a: seq<T>, b: seq<T>, c: seq<T>)
    requires a <= b <= c
    ensures a <= c
  {
  }

  lemma ConcludedServes(log: seq<Db>, from: nat, r: Response, m: Option<nat>, id: string, d: Device,
                        outcome: Outcome, now: nat)
    requires Concluded(log, from, r, m, id, d, outcome, now)
    ensures Served(log, from, r, m, id, d, outcome, now)
  {
  }

  lemma ServedSince(log: seq<Db>, from: nat, later: nat, r: Response, m: Option<nat>, id: string, d: Device,
                    outcome: Outcome, now: nat)
    requires 0 < from <= later && Served(log, later, r, m, id, d, outcome, now)
    ensures Served(log, from, r, m, id, d, outcome, now)
  {
  }

  lemma WasSent(tallies: seq<Rows>, i: nat, k: nat, c: nat, endpoint: string, id: string, p: Platform,
                now: nat, limits: Limits)
    requires 0 < i <= k < c < |tallies| && Decided(tallies, i, k, endpoint, id, true, now, limits)
    requires tallies[c] == Forwarded(tallies[c - 1], id, p, now, limits)
    ensures Sent(tallies, i, endpoint, id, p, now, limits)
  {
  }

  lemma SentSince(tallies: seq<Rows>, from: nat, later: nat, endpoint: string, id: string, p: Platform,
                  now: nat, limits: Limits)
    requires 0 < from <= later && Sent(tallies, later, endpoint, id, p, now, limits)
    ensures Sent(tallies, from, endpoint, id, p, now, limits)
  {
  }

  lemma DecidedStays(tallies: seq<Rows>, later: seq<Rows>, i: nat, k: nat, endpoint: string, device: string,
                     allowed: bool, now: nat, limits: Limits)
    requires 0 < i <= k < |tallies| && tallies <= later
    requires Decided(tallies, i, k, endpoint, device, allowed, now, limits)
    ensures Decided(later, i, k, endpoint, device, allowed, now, limits)
  {
  }
}
