/** The DHCP client as a timed state machine, after messages have been parsed. Times are in milliseconds. */
module DhcpSpec {
  import opened Bytes

  const RESET_TIMEOUT: nat := 4000
  const REQUEST_TIMEOUT: nat := 3000
  const RENEW_REQUEST_TIMEOUT: nat := 20000
  const MAX_REQUESTS: nat := 4
  const XID_REUSE_MAX: nat := 8

  function RenewTimeout(lease: nat): nat { 500 * lease }
  function LeaseTimeout(lease: nat): nat { 1000 * lease - RenewTimeout(lease) }

  datatype Mode = Resetting | SentDiscover | SentRequest | Finished | Renewing

  /** Running timers carry the time they expire at. */
  datatype Timers = Timers(reset: Option<nat>, request: Option<nat>, renew: Option<nat>, renewRequest: Option<nat>, lease: Option<nat>)

  datatype State = State(
    now: nat, mode: Mode, timers: Timers, requests: nat, xid: nat, xidUses: nat,
    address: nat, server: nat, lease: nat, sending: bool)

  datatype Kind = Offer | Ack | Nak

  /** A parsed reply to the current transaction; `lease` and `mask` may be missing. */
  datatype Reply = Reply(kind: Kind, server: nat, address: nat, lease: Option<nat>, mask: Option<nat>)

  /** `Advance` lets time pass; the timer events are expiries; `Sent` ends the sending of a message. */
  datatype Event =
    | Advance(to: nat)
    | ResetExpired(newXid: nat) | RequestExpired(newXid: nat) | RenewExpired | RenewRequestExpired | LeaseExpired(newXid: nat)
    | Received(xid: nat, reply: Reply)
    | Sent

  datatype Output = Up | Down | Discover(xid: nat) | Request(xid: nat, address: nat, server: Option<nat>)

  predicate Due(t: Option<nat>, now: nat) { t.Some? && t.value <= now }

  /** Timers fire at most `late` after they are due: time does not pass a running timer by more. */
  predicate NotPast(late: nat, t: Option<nat>, now: nat) { t.Some? ==> now <= t.value + late }

  predicate OnTime(late: nat, t: Timers, now: nat) {
    && NotPast(late, t.reset, now) && NotPast(late, t.request, now) && NotPast(late, t.renew, now)
    && NotPast(late, t.renewRequest, now) && NotPast(late, t.lease, now)
  }

  predicate Possible(late: nat, st: State, e: Event) {
    match e
    case Advance(to) => st.now <= to && OnTime(late, st.timers, to)
    case ResetExpired(_) => Due(st.timers.reset, st.now)
    case RequestExpired(_) => Due(st.timers.request, st.now)
    case RenewExpired => Due(st.timers.renew, st.now)
    case RenewRequestExpired => Due(st.timers.renewRequest, st.now)
    case LeaseExpired(_) => Due(st.timers.lease, st.now)
    case Received(_, _) => true
    case Sent => st.sending
  }

  // ---- what each event does ----

  /** A message goes out unless one still is. */
  function Send(st: State, m: Output): (State, seq<Output>) {
    if st.sending then (st, []) else (st.(sending := true), [m])
  }

  function StartProcess(st: State, force: bool, newXid: nat): (State, seq<Output>) {
    var renew := force || st.xidUses == XID_REUSE_MAX;
    var t := if renew then st.(xid := newXid, xidUses := 1) else st.(xidUses := st.xidUses + 1);
    var r := Send(t, Discover(t.xid));
    (r.0.(timers := r.0.timers.(reset := Some(st.now + RESET_TIMEOUT)), mode := SentDiscover), r.1)
  }

  /** The timer that fired no longer runs. */
  function ResetHandled(st: State, newXid: nat): (State, seq<Output>) {
    StartProcess(st.(timers := st.timers.(reset := None)), st.mode.Resetting?, newXid)
  }

  function RequestHandled(st: State, newXid: nat): (State, seq<Output>) {
    var t := st.(timers := st.timers.(request := None));
    if st.requests == MAX_REQUESTS then StartProcess(t, false, newXid)
    else
      var r := Send(t, Request(st.xid, st.address, Some(st.server)));
      (r.0.(timers := r.0.timers.(request := Some(st.now + REQUEST_TIMEOUT)), requests := st.requests + 1), r.1)
  }

  function RenewHandled(st: State): (State, seq<Output>) {
    var r := Send(st, Request(st.xid, st.address, None));
    var ts := st.timers.(renew := None, renewRequest := Some(st.now + RENEW_REQUEST_TIMEOUT), lease := Some(st.now + LeaseTimeout(st.lease)));
    (r.0.(timers := ts, mode := Renewing), r.1)
  }

  function RenewRequestHandled(st: State): (State, seq<Output>) {
    var r := Send(st, Request(st.xid, st.address, None));
    (r.0.(timers := st.timers.(renewRequest := Some(st.now + RENEW_REQUEST_TIMEOUT))), r.1)
  }

  function LeaseHandled(st: State, newXid: nat): (State, seq<Output>) {
    var r := StartProcess(st.(timers := st.timers.(renewRequest := None, lease := None)), true, newXid);
    (r.0, r.1 + [Down])
  }

  function NakHandled(st: State, m: Reply): (State, seq<Output>) {
    if m.server != st.server then (st, [])
    else
      var reset := Some(st.now + RESET_TIMEOUT);
      match st.mode
      case SentRequest => (st.(mode := Resetting, timers := st.timers.(request := None, reset := reset)), [])
      case Finished => (st.(mode := Resetting, timers := st.timers.(renew := None, reset := reset)), [Down])
      case Renewing => (st.(mode := Resetting, timers := st.timers.(renewRequest := None, lease := None, reset := reset)), [Down])
      case _ => (st, [])
  }

  /** An acknowledgement of what was requested, from the server it was requested of. */
  predicate Accepted(st: State, m: Reply) {
    && m.kind.Ack? && (st.mode.SentRequest? || st.mode.Renewing?)
    && m.address != 0 && m.lease.Some? && m.mask.Some? && m.address == st.address && m.server == st.server
  }

  predicate OfferTaken(st: State, m: Reply) {
    m.kind.Offer? && st.mode.SentDiscover? && m.address != 0 && m.lease.Some? && m.mask.Some?
  }

  function OfferHandled(st: State, m: Reply): (State, seq<Output>) {
    var r := Send(st.(address := m.address, server := m.server), Request(st.xid, m.address, Some(m.server)));
    (r.0.(timers := st.timers.(reset := None, request := Some(st.now + REQUEST_TIMEOUT)), mode := SentRequest, requests := 1), r.1)
  }

  function AckHandled(st: State, lease: nat): (State, seq<Output>) {
    var ts := if st.mode.SentRequest? then st.timers.(request := None) else st.timers.(renewRequest := None, lease := None);
    (st.(lease := lease, timers := ts.(renew := Some(st.now + RenewTimeout(lease))), mode := Finished),
     if st.mode.SentRequest? then [Up] else [])
  }

  function ReplyHandled(st: State, m: Reply): (State, seq<Output>) {
    if m.kind.Nak? then NakHandled(st, m)
    else if OfferTaken(st, m) then OfferHandled(st, m)
    else if Accepted(st, m) then AckHandled(st, m.lease.value)
    else (st, [])
  }

  function Step(st: State, e: Event): (State, seq<Output>) {
    match e
    case Advance(to) => (st.(now := to), [])
    case ResetExpired(x) => ResetHandled(st, x)
    case RequestExpired(x) => RequestHandled(st, x)
    case RenewExpired => RenewHandled(st)
    case RenewRequestExpired => RenewRequestHandled(st)
    case LeaseExpired(x) => LeaseHandled(st, x)
    case Received(x, m) => if st.mode.Resetting? || x != st.xid then (st, []) else ReplyHandled(st, m)
    case Sent => (st.(sending := false), [])
  }

  function Start(now: nat, xid: nat): (State, seq<Output>) {
    StartProcess(State(now, SentDiscover, Timers(None, None, None, None, None), 0, 0, 0, 0, 0, 0, false), true, xid)
  }

  // ---- the history of a run ----

  /** When an offer and an acknowledgement were last accepted, and what was last reported. */
  datatype History = History(offerAt: nat, ackAt: nat, up: bool)

  function Reports(os: seq<Output>): seq<Output> {
    if os == [] then [] else (if os[0].Up? || os[0].Down? then [os[0]] else []) + Reports(os[1..])
  }

  predicate IsOffer(st: State, e: Event) { e.Received? && e.xid == st.xid && !st.mode.Resetting? && OfferTaken(st, e.reply) }
  predicate IsAck(st: State, e: Event) { e.Received? && e.xid == st.xid && !st.mode.Resetting? && Accepted(st, e.reply) }

  function Record(h: History, st: State, e: Event): History {
    var rs := Reports(Step(st, e).1);
    History(
      if IsOffer(st, e) then st.now else h.offerAt,
      if IsAck(st, e) then st.now else h.ackAt,
      if rs == [] then h.up else rs[|rs| - 1].Up?)
  }

  /** A report is never the same as the one before. */
  predicate Alternates(up: bool, rs: seq<Output>)
    decreases |rs|
  {
    rs == [] || (rs[0].Up? == !up && Alternates(rs[0].Up?, rs[1..]))
  }

  // ---- the invariant ----

  /** Which timers run is settled by the mode. */
  predicate TimersFit(m: Mode, t: Timers) {
    match m
    case Resetting => t.reset.Some? && t.request.None? && t.renew.None? && t.renewRequest.None? && t.lease.None?
    case SentDiscover => t.reset.Some? && t.request.None? && t.renew.None? && t.renewRequest.None? && t.lease.None?
    case SentRequest => t.reset.None? && t.request.Some? && t.renew.None? && t.renewRequest.None? && t.lease.None?
    case Finished => t.reset.None? && t.request.None? && t.renew.Some? && t.renewRequest.None? && t.lease.None?
    case Renewing => t.reset.None? && t.request.None? && t.renew.None? && t.renewRequest.Some? && t.lease.Some?
  }

  predicate IsUp(m: Mode) { m.Finished? || m.Renewing? }

  predicate Inv(late: nat, st: State, h: History) {
    && TimersFit(st.mode, st.timers) && OnTime(late, st.timers, st.now)
    && 1 <= st.xidUses <= XID_REUSE_MAX
    && (st.mode.SentRequest? ==>
        && 1 <= st.requests <= MAX_REQUESTS
        && h.offerAt + REQUEST_TIMEOUT * st.requests <= st.timers.request.value <= h.offerAt + (REQUEST_TIMEOUT + late) * st.requests - late)
    && h.up == IsUp(st.mode)
    && (st.mode.Finished? ==> st.timers.renew == Some(h.ackAt + RenewTimeout(st.lease)))
    && (st.mode.Renewing? ==> h.ackAt + 1000 * st.lease <= st.timers.lease.value <= h.ackAt + 1000 * st.lease + late)
  }

  lemma StartInv(late: nat, now: nat, xid: nat, h: History)
    requires !h.up
    ensures Inv(late, Start(now, xid).0, h) && Reports(Start(now, xid).1) == []
  {
  }

  predicate Kept(late: nat, st: State, h: History, e: Event) {
    Inv(late, Step(st, e).0, Record(h, st, e)) && Alternates(h.up, Reports(Step(st, e).1))
  }

  lemma NoReport(o: Output)
    requires !o.Up? && !o.Down?
    ensures Reports([]) == [] && Reports([o]) == [] && Reports([o] + [Down]) == [Down] && Reports([] + [Down]) == [Down]
  {
    assert ([o] + [Down])[1..] == [Down] && [o][1..] == [] && [Down][1..] == [];
    assert Reports([Down]) == [Down] + Reports([]);
    assert [] + [Down] == [Down];
  }

  lemma OneReport(o: Output)
    requires o.Up? || o.Down?
    ensures Reports([o]) == [o] && (Alternates(o.Down?, [o]))
  {
    assert [o][1..] == [];
  }

  lemma StartKeeps(late: nat, st: State, h: History, newXid: nat)
    requires Inv(late, st, h) && (Possible(late, st, ResetExpired(newXid)) || Possible(late, st, RequestExpired(newXid)))
    ensures Possible(late, st, ResetExpired(newXid)) ==> Kept(late, st, h, ResetExpired(newXid))
    ensures Possible(late, st, RequestExpired(newXid)) ==> Kept(late, st, h, RequestExpired(newXid))
  {
    hide Reports;
    NoReport(Discover(st.xid));
    NoReport(Discover(newXid));
    NoReport(Request(st.xid, st.address, Some(st.server)));
  }

  lemma RenewKeeps(late: nat, st: State, h: History)
    requires Inv(late, st, h)
    ensures Possible(late, st, RenewExpired) ==> Kept(late, st, h, RenewExpired)
    ensures Possible(late, st, RenewRequestExpired) ==> Kept(late, st, h, RenewRequestExpired)
  {
    hide Reports;
    NoReport(Request(st.xid, st.address, None));
  }

  lemma LeaseKeeps(late: nat, st: State, h: History, newXid: nat)
    requires Inv(late, st, h) && Possible(late, st, LeaseExpired(newXid))
    ensures Kept(late, st, h, LeaseExpired(newXid))
  {
    hide Reports;
    NoReport(Discover(newXid));
    OneReport(Down);
  }

  lemma NakKeeps(late: nat, st: State, h: History, m: Reply)
    requires Inv(late, st, h) && m.kind.Nak?
    ensures Kept(late, st, h, Received(st.xid, m))
  {
    hide Reports;
    OneReport(Down);
    NoReport(Discover(0));
  }

  lemma OfferKeeps(late: nat, st: State, h: History, m: Reply)
    requires Inv(late, st, h) && OfferTaken(st, m)
    ensures Kept(late, st, h, Received(st.xid, m))
  {
    hide Reports;
    NoReport(Request(st.xid, m.address, Some(m.server)));
  }

  lemma AckKeeps(late: nat, st: State, h: History, m: Reply)
    requires Inv(late, st, h) && Accepted(st, m)
    ensures Kept(late, st, h, Received(st.xid, m))
  {
    hide Reports;
    OneReport(Up);
    NoReport(Discover(0));
  }

  lemma QuietKeeps(late: nat, st: State, h: History, e: Event)
    requires Inv(late, st, h) && Possible(late, st, e)
    requires e.Advance? || e.Sent? || (e.Received? && !e.reply.kind.Nak? && !IsOffer(st, e) && !IsAck(st, e)) ||
             (e.Received? && (st.mode.Resetting? || e.xid != st.xid))
    ensures Kept(late, st, h, e)
  {
    hide Reports;
    NoReport(Discover(0));
  }

  /** Every event keeps the invariant, and reports only a change. */
  lemma StepKeeps(late: nat, st: State, h: History, e: Event)
    requires Inv(late, st, h) && Possible(late, st, e)
    ensures Inv(late, Step(st, e).0, Record(h, st, e))
    ensures Alternates(h.up, Reports(Step(st, e).1))
  {
    hide Inv, Step, Record, Reports, Alternates, OfferTaken, Accepted;
    match e
    case ResetExpired(x) => StartKeeps(late, st, h, x);
    case RequestExpired(x) => StartKeeps(late, st, h, x);
    case RenewExpired => RenewKeeps(late, st, h);
    case RenewRequestExpired => RenewKeeps(late, st, h);
    case LeaseExpired(x) => LeaseKeeps(late, st, h, x);
    case Received(x, m) =>
      if st.mode.Resetting? || x != st.xid { QuietKeeps(late, st, h, e); }
      else if m.kind.Nak? { NakKeeps(late, st, h, m); }
      else if OfferTaken(st, m) { OfferKeeps(late, st, h, m); }
      else if Accepted(st, m) { AckKeeps(late, st, h, m); }
      else { QuietKeeps(late, st, h, e); }
    case _ => QuietKeeps(late, st, h, e);
  }

  /** The renew timer runs only once there is a lease, and not shorter than half of it. */
  lemma RenewFacts(late: nat, st: State, h: History)
    requires Inv(late, st, h) && Due(st.timers.renew, st.now)
    ensures st.mode.Finished? && h.up && h.ackAt + 500 * st.lease <= st.now && Record(h, st, RenewExpired) == h
    ensures h.ackAt + 1000 * st.lease <= st.now + LeaseTimeout(st.lease) <= h.ackAt + 1000 * st.lease + late
  {
    hide Reports;
    NoReport(Request(st.xid, st.address, None));
  }

  /** The request timer runs only with one to four requests out, each given its full time. */
  lemma RequestFacts(late: nat, st: State, h: History, newXid: nat)
    requires Inv(late, st, h) && Due(st.timers.request, st.now)
    ensures st.mode.SentRequest? && 1 <= st.requests <= MAX_REQUESTS && !h.up && !Record(h, st, RequestExpired(newXid)).up
    ensures st.now >= h.offerAt + REQUEST_TIMEOUT * st.requests
  {
    hide Reports;
    NoReport(Discover(st.xid));
    NoReport(Discover(newXid));
    NoReport(Request(st.xid, st.address, Some(st.server)));
  }

  /** A client that was up goes down on a refusal from its server, or once its lease has run out, and not before. */
  lemma DownMeans(late: nat, st: State, h: History, e: Event)
    requires Inv(late, st, h) && Possible(late, st, e) && h.up && !Record(h, st, e).up
    ensures || (e.Received? && e.xid == st.xid && e.reply.kind.Nak? && e.reply.server == st.server)
            || (e.LeaseExpired? && h.ackAt + 1000 * st.lease <= st.now <= h.ackAt + 1000 * st.lease + 2 * late)
  {
    hide Reports;
    NoReport(Discover(0));
    if e.RenewExpired? || e.RenewRequestExpired? { NoReport(Request(st.xid, st.address, None)); }
    OneReport(Up);
  }

  // ---- whole runs ----

  ghost predicate PossibleRun(late: nat, st: State, es: seq<Event>)
    decreases |es|
  {
    es == [] || (Possible(late, st, es[0]) && PossibleRun(late, Step(st, es[0]).0, es[1..]))
  }

  function Run(st: State, es: seq<Event>): State
    decreases |es|
  {
    if es == [] then st else Run(Step(st, es[0]).0, es[1..])
  }

  function RunRecord(h: History, st: State, es: seq<Event>): History
    decreases |es|
  {
    if es == [] then h else RunRecord(Record(h, st, es[0]), Step(st, es[0]).0, es[1..])
  }

  function RunReports(st: State, es: seq<Event>): seq<Output>
    decreases |es|
  {
    if es == [] then [] else Reports(Step(st, es[0]).1) + RunReports(Step(st, es[0]).0, es[1..])
  }

  /** What was reported last. */
  function Last(up: bool, rs: seq<Output>): bool { if rs == [] then up else rs[|rs| - 1].Up? }

  lemma {:induction false} AlternatesAppend(up: bool, a: seq<Output>, b: seq<Output>)
    requires Alternates(up, a) && Alternates(Last(up, a), b)
    ensures Alternates(up, a + b)
    decreases |a|
  {
    if a == [] {
      assert a + b == b;
    } else {
      assert (a + b)[1..] == a[1..] + b;
      AlternatesAppend(a[0].Up?, a[1..], b);
    }
  }

  lemma {:induction false} RunKeeps(late: nat, st: State, h: History, es: seq<Event>)
    requires Inv(late, st, h) && PossibleRun(late, st, es)
    ensures Inv(late, Run(st, es), RunRecord(h, st, es))
    ensures Alternates(h.up, RunReports(st, es))
    decreases |es|
  {
    hide Inv, Step, Reports, Alternates, Possible;
    if es == [] {
      assert Alternates(h.up, []) by { NothingAlternates(h.up); }
    } else {
      var st', h', rs := Step(st, es[0]).0, Record(h, st, es[0]), Reports(Step(st, es[0]).1);
      StepKeeps(late, st, h, es[0]);
      RunKeeps(late, st', h', es[1..]);
      AlternatesAppend(h.up, rs, RunReports(st', es[1..]));
    }
  }

  lemma NothingAlternates(up: bool)
    ensures Alternates(up, [])
  {
  }

  /**
   * Over every run whose timers fire at most `late` after they are due: up and down reports alternate, starting with up;
   * the client is up exactly when its last report was; while up it is past its last accepted acknowledgement by no more
   * than the lease and twice that lateness; and a request phase lasts no longer than its four timeouts.
   */
  lemma Safety(late: nat, now: nat, xid: nat, es: seq<Event>)
    requires PossibleRun(late, Start(now, xid).0, es)
    ensures var st, h := Run(Start(now, xid).0, es), RunRecord(History(0, 0, false), Start(now, xid).0, es);
            && Alternates(false, RunReports(Start(now, xid).0, es))
            && h.up == IsUp(st.mode) && TimersFit(st.mode, st.timers)
            && (IsUp(st.mode) ==> st.now <= h.ackAt + 1000 * st.lease + 2 * late)
            && (st.mode.SentRequest? ==> st.now <= h.offerAt + (REQUEST_TIMEOUT + late) * MAX_REQUESTS && 1 <= st.requests <= MAX_REQUESTS)
            && 1 <= st.xidUses <= XID_REUSE_MAX
  {
    hide Step, Reports, Record, Alternates;
    var h := History(0, 0, false);
    StartInv(late, now, xid, h);
    RunKeeps(late, Start(now, xid).0, h, es);
  }
}
