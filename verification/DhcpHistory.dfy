/**
 What the client says and which replies it heeds, told from what happened before: the offer it took, the lease it was
 given, and when it last started over, asked or renewed.
 */
module DhcpHistory {
  import opened Bytes
  import opened DhcpSpec

  datatype Given = Given(address: nat, server: nat)

  /**
   `offer` is the last offer taken and `lease` what the last acknowledgement taken gave; `startedAt`, `askedAt` and
   `renewedAt` are when a transaction was last started or refused, a request last sent and a renewal last sent; `uses` is
   how many transactions have been started under the current id.
   */
  datatype Log = Log(offer: Option<Given>, lease: nat, startedAt: nat, askedAt: nat, renewedAt: nat, uses: nat)

  // ---- what counts ----

  predicate Ours(st: State, e: Event) { e.Received? && e.xid == st.xid }

  predicate Grants(m: Reply) { m.lease.Some? && m.mask.Some? }

  /** While discovering, an offer of an address with lease and mask. */
  predicate TakesOffer(st: State, e: Event) {
    Ours(st, e) && st.mode.SentDiscover? && e.reply.kind.Offer? && e.reply.address != 0 && Grants(e.reply)
  }

  /** While requesting or renewing, an acknowledgement of the offer from the server that made it, with lease and mask. */
  predicate TakesAck(st: State, g: Log, e: Event) {
    && Ours(st, e) && (st.mode.SentRequest? || st.mode.Renewing?) && e.reply.kind.Ack? && Grants(e.reply)
    && g.offer == Some(Given(e.reply.address, e.reply.server))
  }

  /** Once a request has been made, a refusal from the server that made the offer. */
  predicate TakesNak(st: State, g: Log, e: Event) {
    && Ours(st, e) && (st.mode.SentRequest? || IsUp(st.mode)) && e.reply.kind.Nak?
    && g.offer.Some? && g.offer.value.server == e.reply.server
  }

  /** A transaction is started: after a pause, after the last of four requests, or when the lease is over. */
  predicate Starts(st: State, e: Event) {
    e.ResetExpired? || e.LeaseExpired? || (e.RequestExpired? && st.requests == MAX_REQUESTS)
  }

  predicate Asks(st: State, e: Event) { TakesOffer(st, e) || (e.RequestExpired? && st.requests < MAX_REQUESTS) }

  predicate Renews(e: Event) { e.RenewExpired? || e.RenewRequestExpired? }

  /** It needs a new id: after a refusal or the end of a lease, or once the old one has been used eight times. */
  predicate NeedsId(st: State, g: Log, e: Event) { Starts(st, e) && (st.mode.Resetting? || e.LeaseExpired? || g.uses == XID_REUSE_MAX) }

  function NewId(e: Event): nat
    requires e.ResetExpired? || e.LeaseExpired? || e.RequestExpired?
  {
    e.newXid
  }

  function LogStep(g: Log, st: State, e: Event): Log {
    Log(if TakesOffer(st, e) then Some(Given(e.reply.address, e.reply.server)) else g.offer,
        if TakesAck(st, g, e) then e.reply.lease.value else g.lease,
        if Starts(st, e) || TakesNak(st, g, e) then st.now else g.startedAt,
        if Asks(st, e) then st.now else g.askedAt,
        if Renews(e) then st.now else g.renewedAt,
        if NeedsId(st, g, e) then 1 else if Starts(st, e) then g.uses + 1 else g.uses)
  }

  // ---- what is remembered ----

  /** The client's memory and its timers are those of the log. */
  predicate Remembers(st: State, g: Log) {
    && st.xidUses == g.uses
    && (st.mode.SentRequest? || IsUp(st.mode) ==> g.offer.Some? && g.offer.value == Given(st.address, st.server) && st.address != 0)
    && (IsUp(st.mode) ==> st.lease == g.lease)
    && (st.mode.Resetting? || st.mode.SentDiscover? ==> st.timers.reset == Some(g.startedAt + RESET_TIMEOUT))
    && (st.mode.SentRequest? ==> st.timers.request == Some(g.askedAt + REQUEST_TIMEOUT))
    && (st.mode.Renewing? ==> st.timers.renewRequest == Some(g.renewedAt + RENEW_REQUEST_TIMEOUT))
  }

  /** A message goes out unless one still is. */
  function Said(st: State, m: Output): seq<Output> { if st.sending then [] else [m] }

  function Id(st: State, g: Log, e: Event): nat { if NeedsId(st, g, e) then NewId(e) else st.xid }

  /** What the client does about an event, in terms of the log. */
  predicate Does(st: State, g: Log, e: Event, t: State, out: seq<Output>) {
    && t.xid == Id(st, g, e)
    && if Starts(st, e) then t.mode.SentDiscover? && out == Said(st, Discover(t.xid)) + (if e.LeaseExpired? then [Down] else [])
       else if TakesOffer(st, e) then
         t.mode.SentRequest? && t.requests == 1 && out == Said(st, Request(st.xid, e.reply.address, Some(e.reply.server)))
       else if e.RequestExpired? then
         && t.mode.SentRequest? && t.requests == st.requests + 1 && g.offer.Some?
         && out == Said(st, Request(st.xid, g.offer.value.address, Some(g.offer.value.server)))
       else if Renews(e) then
         t.mode.Renewing? && g.offer.Some? && out == Said(st, Request(st.xid, g.offer.value.address, None))
       else if TakesAck(st, g, e) then t.mode.Finished? && out == if st.mode.SentRequest? then [Up] else []
       else if TakesNak(st, g, e) then t.mode.Resetting? && out == if IsUp(st.mode) then [Down] else []
       else out == [] && t == if e.Advance? then st.(now := e.to) else if e.Sent? then st.(sending := false) else st
  }

  // ---- it is so ----

  /** A transaction is started. */
  lemma StartDoes(late: nat, st: State, h: History, g: Log, e: Event)
    requires Inv(late, st, h) && Possible(late, st, e) && Remembers(st, g) && Starts(st, e)
    ensures var (t, out) := Step(st, e); Does(st, g, e, t, out) && Remembers(t, LogStep(g, st, e))
  {
    assert st.sending ==> [] + [Down] == [Down];
  }

  lemma TimerDoes(late: nat, st: State, h: History, g: Log, e: Event)
    requires Inv(late, st, h) && Possible(late, st, e) && Remembers(st, g) && !e.Received?
    ensures var (t, out) := Step(st, e); Does(st, g, e, t, out) && Remembers(t, LogStep(g, st, e))
  {
    hide Inv, Step, Does, Remembers, LogStep, Possible;
    if Starts(st, e) { StartDoes(late, st, h, g, e); } else { OtherTimerDoes(late, st, h, g, e); }
  }

  lemma OtherTimerDoes(late: nat, st: State, h: History, g: Log, e: Event)
    requires Inv(late, st, h) && Possible(late, st, e) && Remembers(st, g) && !e.Received? && !Starts(st, e)
    ensures var (t, out) := Step(st, e); Does(st, g, e, t, out) && Remembers(t, LogStep(g, st, e))
  {
    hide StartProcess;
  }

  lemma ReplyDoes(late: nat, st: State, h: History, g: Log, e: Event)
    requires Inv(late, st, h) && Remembers(st, g) && e.Received?
    ensures var (t, out) := Step(st, e); Does(st, g, e, t, out) && Remembers(t, LogStep(g, st, e))
  {
  }

  lemma {:induction false} RunDoes(late: nat, st: State, h: History, g: Log, es: seq<Event>)
    requires Inv(late, st, h) && PossibleRun(late, st, es) && Remembers(st, g)
    ensures Remembers(Run(st, es), RunLog(g, st, es))
    decreases |es|
  {
    hide Inv, Step, Possible, Remembers, LogStep;
    if es != [] {
      StepKeeps(late, st, h, es[0]);
      if es[0].Received? { ReplyDoes(late, st, h, g, es[0]); } else { TimerDoes(late, st, h, g, es[0]); }
      RunDoes(late, Step(st, es[0]).0, Record(h, st, es[0]), LogStep(g, st, es[0]), es[1..]);
    }
  }

  function RunLog(g: Log, st: State, es: seq<Event>): Log
    decreases |es|
  {
    if es == [] then g else RunLog(LogStep(g, st, es[0]), Step(st, es[0]).0, es[1..])
  }

  function FirstLog(now: nat): Log { Log(None, 0, now, 0, 0, 1) }

  /**
   After any run, whatever comes next: the client does exactly what the log says. It asks for the address it was offered,
   of the server that offered it while requesting and of no one in particular while renewing, under its current id; it
   comes up on an acknowledgement of just that, goes back on a refusal from just that server, and heeds no other reply.
   */
  lemma ClientFollows(late: nat, now: nat, xid: nat, es: seq<Event>, e: Event)
    requires PossibleRun(late, Start(now, xid).0, es) && Possible(late, Run(Start(now, xid).0, es), e)
    ensures var st, g := Run(Start(now, xid).0, es), RunLog(FirstLog(now), Start(now, xid).0, es);
            && Remembers(st, g) && Does(st, g, e, Step(st, e).0, Step(st, e).1)
  {
    hide Step, Run, PossibleRun, Inv, Does, RunLog, Possible;
    var st0, h := Start(now, xid).0, History(0, 0, false);
    StartInv(late, now, xid, h);
    RunKeeps(late, st0, h, es);
    RunDoes(late, st0, h, FirstLog(now), es);
    var st, g := Run(st0, es), RunLog(FirstLog(now), st0, es);
    if e.Received? { ReplyDoes(late, st, RunRecord(h, st0, es), g, e); } else { TimerDoes(late, st, RunRecord(h, st0, es), g, e); }
  }

  /** While requesting, the awaited acknowledgement is reported at once, and one of another address or server changes nothing. */
  lemma AwaitedAck(late: nat, st: State, h: History, g: Log, m: Reply)
    requires Inv(late, st, h) && Remembers(st, g) && st.mode.SentRequest? && m.kind.Ack? && Grants(m)
    ensures g.offer.Some?
    ensures var (t, out) := Step(st, Received(st.xid, m));
            if m.address == g.offer.value.address && m.server == g.offer.value.server
            then Reports(out) == [Up] && t.mode.Finished? && t.lease == m.lease.value
                 && t.timers.renew == Some(st.now + 500 * m.lease.value)
            else (t, out) == (st, [])
  {
    hide Reports;
    OneReport(Up);
  }
}
