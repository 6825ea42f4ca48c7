/** The event loop of qmi_main (mobile/quectel-CM/src/main.c) as a step system: when it dials, how long
    it backs off after failures, and that a redial which is due is never forgotten. */
module RedialSpec {
  import opened Options

  const DISCONNECTED: nat := 0x01
  const CONNECTED: nat := 0x02
  const UNKNOWN: nat := 0xFF

  datatype Signal = START | CHECK | STOP

  /** What the profile asks for; `account` says that user and password are both non-empty. */
  datatype Config = Config(enable4: bool, enable6: bool, account: bool)

  /** What happened to the pace of dialling, in order; times in milliseconds. Every dialled round is logged:
      `failed` says what the modem answered, `due` whether an enabled family is marked disconnected
      afterwards, `up` whether a family is marked connected. */
  datatype Mark = Round(time: nat, failed: bool, due: bool, up: bool) | Detached | CallChanged

  /** What happened to the network link: DHCP started or stopped, or the link state cleared by a modem
      reset, which runs no DHCP command; `up` is the state it cleared. */
  datatype LinkMark = Started | Stopped | Reset(up: bool)

  datatype State = State(
    v4: nat, v6: nat, fails: nat, allow: nat, link: int, ps: nat, loopback: bool, auth: int,
    alarm: Option<nat>, queue: seq<Signal>, stopped: bool,
    marks: seq<Mark>, links: seq<LinkMark>, dials: seq<(nat, nat)>, released: seq<Family>)

  datatype Family = V4 | V6

  /** The modem's answers while dialling: setup, setup again with the other auth mode, address. */
  datatype Dial = Dial(setup4: int, retry4: int, address4: int, setup6: int, address6: int)

  /** The modem's answers while checking: None is a failed query, which leaves the status alone. */
  datatype Query = Query(status4: Option<nat>, sameAddress: bool, status6: Option<nat>)

  function Initial(now: nat, ps: nat, auth: int): State {
    State(UNKNOWN, UNKNOWN, 0, now, -1, ps, false, auth, None, [CHECK], false, [], [], [], [])
  }

  /** An enabled family is marked disconnected. */
  predicate Due(c: Config, s: State) {
    (c.enable4 && s.v4 == DISCONNECTED) || (c.enable6 && s.v6 == DISCONNECTED)
  }

  predicate Up(s: State) { s.v4 == CONNECTED || s.v6 == CONNECTED }

  /** allow_time[]: seconds to wait after the n-th failure in a row, counting from 0. */
  function Delay(n: nat): nat {
    if n == 0 then 5 else if n == 1 then 10 else if n == 2 then 20 else if n == 3 then 40 else 60
  }

  /** The IPv4 half of a dial: one retry with the other auth mode when an account is set. */
  function Dial4(c: Config, s: State, d: Dial): State {
    if c.enable4 && s.v4 != CONNECTED then
      var retried := d.setup4 > 0 && c.account;
      var err := if retried then d.retry4 else d.setup4;
      var auth := if retried && err == 0 then (if s.auth == 1 then 2 else 1) else s.auth;
      s.(auth := auth, v4 := if err == 0 && d.address4 == 0 then CONNECTED else s.v4)
    else s
  }

  function Dial6(c: Config, s: State, d: Dial): State {
    if c.enable6 && s.v6 != CONNECTED then
      s.(v6 := if d.setup6 == 0 && d.address6 == 0 then CONNECTED else s.v6)
    else s
  }

  function Dialled(c: Config, s: State, now: nat, d: Dial): State {
    Dial6(c, Dial4(c, s.(dials := s.dials + [(now, s.allow)]), d), d)
  }

  function Error4(c: Config, d: Dial): int { if d.setup4 > 0 && c.account then d.retry4 else d.setup4 }

  /** A family that the round dials does not come up, by the modem's answers. */
  predicate RoundFails(c: Config, s: State, d: Dial) {
    || (c.enable4 && s.v4 != CONNECTED && (Error4(c, d) != 0 || d.address4 != 0))
    || (c.enable6 && s.v6 != CONNECTED && (d.setup6 != 0 || d.address6 != 0))
  }

  /** The end of a dial: back off, or start afresh, or neither. */
  function Settle(c: Config, s: State, now: nat): State {
    if Due(c, s) then
      var seconds := Delay(s.fails);
      s.(fails := s.fails + 1, alarm := Some(now + 1000 * seconds), allow := 1000 * seconds + now)
    else if Up(s) then
      s.(fails := 0, allow := now)
    else s
  }

  /** SIG_EVENT_START, after alarm(0). */
  function Start(c: Config, s: State, now: nat, d: Dial): State {
    if s.ps != 1 && !s.loopback then s
    else if s.allow > now then s.(alarm := Some(now + 1000 * ((s.allow - now + 999) / 1000)))
    else
      var t := Dialled(c, s, now, d);
      Settle(c, t.(marks := t.marks + [Round(now, RoundFails(c, s, d), Due(c, t), Up(t))]), now)
  }

  /** usbnet_link_change. */
  function Link(s: State, link: int): State {
    if s.link == link then s
    else s.(link := link, links := s.links + [if link != 0 then Started else Stopped])
  }

  function Queried(enabled: bool, before: nat, answer: Option<nat>): nat {
    if !enabled then DISCONNECTED else if answer.Some? then answer.value else before
  }

  /** SIG_EVENT_CHECK, after alarm(0). */
  function Check(c: Config, s: State, q: Query): State {
    var v4 := Queried(c.enable4, s.v4, q.status4);
    var s1 := s.(v4 := if c.enable4 && v4 == CONNECTED && !q.sameAddress then DISCONNECTED else v4,
                 v6 := Queried(c.enable6, s.v6, q.status6),
                 released := s.released + if c.enable4 && v4 == CONNECTED && !q.sameAddress then [V4] else []);
    var s2 := if s1.v4 == DISCONNECTED && s1.v6 == DISCONNECTED then Link(s1, 0)
              else if Up(s1) then Link(s1, 1)
              else s1;
    if Due(c, s2) then s2.(queue := s2.queue + [START]) else s2
  }

  /** SIG_EVENT_STOP: every connected family the profile enables is deactivated. */
  function Stop(c: Config, s: State): State {
    Link(s, 0).(stopped := true,
                released := s.released + (if c.enable4 && s.v4 == CONNECTED then [V4] else [])
                                       + (if c.enable6 && s.v6 == CONNECTED then [V6] else []))
  }

  datatype Event =
    | Signalled(now: nat, d: Dial, q: Query)
    | Quiet
    | AlarmRings
    | NetworkChanged(now: nat, ps: nat)
    | DataCallChanged(now: nat)
    | LoopbackSet(on: bool)
    | ModemReset(restart: bool, ps: nat)
    | DeviceGone(restart: bool, ps: nat)
    | Terminated

  /** A signal is read only when one is queued, and an alarm rings only when one is armed. */
  predicate Enabled(s: State, e: Event) {
    && !s.stopped
    && (e.Signalled? ==> s.queue != [])
    && (e.AlarmRings? ==> s.alarm.Some?)
  }

  function Step(c: Config, s: State, e: Event): State
    requires Enabled(s, e)
  {
    match e
    case Signalled(now, d, q) =>
      var s' := s.(queue := s.queue[1..], alarm := None);
      (match s.queue[0]
       case START => Start(c, s', now, d)
       case CHECK => Check(c, s', q)
       case STOP => Stop(c, s'))
    case Quiet => s.(queue := s.queue + [CHECK])
    case AlarmRings => s.(alarm := None, queue := s.queue + [START])
    case NetworkChanged(now, ps) =>
      var s' := s.(ps := ps);
      if ps == 1 then (if Due(c, s') then s'.(queue := s'.queue + [START]) else s')
      else s'.(allow := now, marks := s'.marks + [Detached])
    case DataCallChanged(now) =>
      var s' := if Up(s) then s.(allow := now + 1000, marks := s.marks + [CallChanged]) else s;
      s'.(queue := s'.queue + [CHECK])
    case LoopbackSet(on) =>
      var s' := s.(loopback := on);
      if on then s'.(queue := s'.queue + [START]) else s'
    case ModemReset(restart, ps) =>
      var s' := s.(link := 0, links := s.links + [Reset(s.link == 1)]);
      if restart then s'.(queue := [CHECK], ps := ps, loopback := false) else s'.(stopped := true)
    case DeviceGone(restart, ps) =>
      if restart then Link(s, 0).(queue := [CHECK], ps := ps, loopback := false)
      else Link(s, 0).(stopped := true)
    case Terminated => s.(queue := s.queue + [STOP])
  }

  // ----- no redial is lost

  /** Something will make the loop dial: a queued START, an armed alarm, or a queued CHECK, which queues
      a START. */
  predicate Armed(s: State) { START in s.queue || s.alarm.Some? || CHECK in s.queue }

  predicate NothingLost(c: Config, s: State) { !s.stopped && Due(c, s) ==> Armed(s) }

  /** A START is handled while detached, with nothing else pending. */
  predicate DroppedWhileDetached(c: Config, s: State, e: Event)
    requires Enabled(s, e)
  {
    && e.Signalled? && s.queue[0] == START && s.ps != 1 && !s.loopback
    && Due(c, s) && START !in s.queue[1..] && CHECK !in s.queue[1..]
  }

  /** After a CHECK a disconnected family has a START queued, whatever the modem answered. */
  lemma AfterCheck(c: Config, s: State, e: Event)
    requires Enabled(s, e) && e.Signalled? && s.queue[0] == CHECK
    ensures var s' := Step(c, s, e); Due(c, s') ==> START in s'.queue
  {
    var s' := Step(c, s, e);
    if Due(c, s') {
      assert s'.queue[|s'.queue| - 1] == START;
    }
  }

  /** After a START that is not dropped a disconnected family has the alarm armed, for the first whole
      second at which the dial is allowed. */
  lemma AfterStart(c: Config, s: State, e: Event)
    requires Enabled(s, e) && e.Signalled? && s.queue[0] == START && (s.ps == 1 || s.loopback)
    ensures var s' := Step(c, s, e);
            Due(c, s') ==> s'.alarm.Some? && s'.allow <= s'.alarm.value < s'.allow + 1000
  {
  }

  /** After an attach a disconnected family has a START queued. */
  lemma AfterAttach(c: Config, s: State, e: Event)
    requires Enabled(s, e) && e.NetworkChanged? && e.ps == 1
    ensures var s' := Step(c, s, e); (Due(c, s') <==> Due(c, s)) && (Due(c, s') ==> START in s'.queue)
  {
    var s' := Step(c, s, e);
    if Due(c, s) {
      assert s'.queue[|s'.queue| - 1] == START;
    }
  }

  lemma SignalLosesNothing(c: Config, s: State, e: Event)
    requires Enabled(s, e) && e.Signalled? && NothingLost(c, s)
    ensures NothingLost(c, Step(c, s, e)) <==> !DroppedWhileDetached(c, s, e)
  {
    hide Check, Start;
    var s' := s.(queue := s.queue[1..], alarm := None);
    match s.queue[0]
    case START =>
      if s.ps == 1 || s.loopback {
        AfterStart(c, s, e);
      } else {
        assert Start(c, s', e.now, e.d) == s' by { StartDetached(c, s', e.now, e.d); }
      }
    case CHECK => AfterCheck(c, s, e);
    case STOP =>
  }

  lemma StartDetached(c: Config, s: State, now: nat, d: Dial)
    requires s.ps != 1 && !s.loopback
    ensures Start(c, s, now, d) == s
  {
  }

  /** A step loses a redial exactly when it handles a START while detached with nothing else pending. */
  lemma StepLosesNothing(c: Config, s: State, e: Event)
    requires Enabled(s, e) && NothingLost(c, s)
    ensures NothingLost(c, Step(c, s, e)) <==> !DroppedWhileDetached(c, s, e)
  {
    hide Check, Start;
    var s' := Step(c, s, e);
    match e
    case Signalled(now, d, q) => SignalLosesNothing(c, s, e);
    case Quiet => assert s'.queue[|s'.queue| - 1] == CHECK;
    case AlarmRings => assert s'.queue[|s'.queue| - 1] == START;
    case NetworkChanged(now, ps) =>
      if ps == 1 && Due(c, s) {
        assert s'.queue[|s'.queue| - 1] == START;
      }
    case DataCallChanged(now) => assert s'.queue[|s'.queue| - 1] == CHECK;
    case LoopbackSet(on) =>
      if on {
        assert s'.queue[|s'.queue| - 1] == START;
      }
    case Terminated => assert forall x: Signal :: x in s.queue ==> x in s'.queue;
    case _ =>
  }

  /** A redial that is lost: detached, the first CHECK finds IPv4 disconnected and queues a START, which is
      handled while still detached. */
  lemma RedialLost(d: Dial, q: Query, auth: int)
    requires q.status4 == Some(DISCONNECTED)
    ensures var c, s0 := Config(true, false, false), Initial(0, 0, auth);
            var es := [Signalled(0, d, q), Signalled(0, d, q)];
            && NothingLost(c, s0) && Possible(c, s0, es)
            && var s := Run(c, s0, es); Due(c, s) && !s.stopped && s.queue == [] && s.alarm == None
  {
    var c, s0 := Config(true, false, false), Initial(0, 0, auth);
    var e := Signalled(0, d, q);
    var s1 := Step(c, s0, e);
    assert s1.queue == [START] && Step(c, s1, e).queue == [];
    TwoSteps(c, s0, e, e);
  }

  /** The attach after that run queues the START again. */
  lemma RedialRecovered(d: Dial, q: Query, auth: int, now: nat)
    requires q.status4 == Some(DISCONNECTED)
    ensures var c, s0 := Config(true, false, false), Initial(0, 0, auth);
            var es := [Signalled(0, d, q), Signalled(0, d, q)];
            && Possible(c, s0, es) && Enabled(Run(c, s0, es), NetworkChanged(now, 1))
            && Step(c, Run(c, s0, es), NetworkChanged(now, 1)).queue == [START]
  {
    RedialLost(d, q, auth);
  }

  // ----- pace

  /** A round fails exactly when some enabled family is not connected after it. */
  lemma RoundFailsIs(c: Config, s: State, now: nat, d: Dial)
    ensures var t := Dialled(c, s, now, d);
            RoundFails(c, s, d) <==> (c.enable4 && t.v4 != CONNECTED) || (c.enable6 && t.v6 != CONNECTED)
  {
  }

  predicate Dials(s: State, now: nat) { (s.ps == 1 || s.loopback) && s.allow <= now }

  /** A failed round backs off, that is counts as a failure, arms the alarm and puts off the next dial,
      exactly when an enabled family is marked disconnected after it. One that leaves the families only
      undetermined puts nothing off. A round that does not fail never backs off. */
  lemma BacksOffIffDue(c: Config, s: State, now: nat, d: Dial)
    requires Dials(s, now)
    ensures var t := Start(c, s, now, d);
            && (t.fails == s.fails + 1 && t.allow == now + 1000 * Delay(s.fails) && t.alarm == Some(t.allow)
                <==> Due(c, t))
            && (!Due(c, t) ==> t.allow <= now && t.alarm == s.alarm)
            && (!RoundFails(c, s, d) ==> !Due(c, t))
  {
    hide Dialled, RoundFails, Delay;
    RoundFailsIs(c, s, now, d);
    DialledKeeps(c, s, now, d);
    DelayIsPositive(s.fails);
  }

  /** The same condition before the round: an enabled family is marked disconnected and the modem's answers do
      not connect it. */
  lemma DueBefore(c: Config, s: State, now: nat, d: Dial)
    requires Dials(s, now)
    ensures Due(c, Start(c, s, now, d)) <==>
            || (c.enable4 && s.v4 == DISCONNECTED && (Error4(c, d) != 0 || d.address4 != 0))
            || (c.enable6 && s.v6 == DISCONNECTED && (d.setup6 != 0 || d.address6 != 0))
  {
  }

  /** Every enabled family is marked connected or disconnected. */
  predicate Determined(c: Config, s: State) {
    && (c.enable4 ==> s.v4 == CONNECTED || s.v4 == DISCONNECTED)
    && (c.enable6 ==> s.v6 == CONNECTED || s.v6 == DISCONNECTED)
  }

  /** With every enabled family determined, a failed round always backs off. */
  lemma DeterminedBacksOff(c: Config, s: State, now: nat, d: Dial)
    requires Dials(s, now) && Determined(c, s)
    ensures RoundFails(c, s, d) <==> Due(c, Start(c, s, now, d))
  {
    hide Start;
    DueBefore(c, s, now, d);
  }

  lemma DelayIsPositive(n: nat)
    ensures Delay(n) > 0
  {
  }

  /** When the next round may go out: after a failed round at `now`, a START at a later time dials again
      exactly when the round left no family marked disconnected or its back-off is over. */
  lemma NextDial(c: Config, s: State, now: nat, d: Dial, later: nat, d': Dial)
    requires Dials(s, now) && RoundFails(c, s, d) && now <= later
    ensures var t := Start(c, s, now, d);
            Start(c, t, later, d').dials == t.dials + [(later, t.allow)]
            <==> !Due(c, t) || later >= now + 1000 * Delay(s.fails)
  {
    hide RoundFails, Due, Dialled;
    BacksOffIffDue(c, s, now, d);
    DialledKeeps(c, s, now, d);
    var t := Start(c, s, now, d);
    StartDials(c, t, later, d');
    StartKeepsAttached(c, s, now, d);
  }

  lemma StartDials(c: Config, s: State, now: nat, d: Dial)
    ensures Start(c, s, now, d).dials == if Dials(s, now) then s.dials + [(now, s.allow)] else s.dials
  {
    hide Dialled, RoundFails, Due, Up, Delay;
    DialledKeeps(c, s, now, d);
  }

  lemma StartKeepsAttached(c: Config, s: State, now: nat, d: Dial)
    ensures Start(c, s, now, d).ps == s.ps && Start(c, s, now, d).loopback == s.loopback
  {
    hide Dialled, RoundFails, Due, Up, Delay;
    DialledKeeps(c, s, now, d);
  }

  /** Rounds that backed off since the last one that ended connected with nothing left to redial. */
  function Streak(marks: seq<Mark>): nat {
    if marks == [] then 0
    else
      var m, before := marks[|marks| - 1], Streak(marks[..|marks| - 1]);
      if !m.Round? then before else if m.due then before + 1 else if m.up then 0 else before
  }

  /** Failed rounds since the last one that did not fail. */
  function Failures(marks: seq<Mark>): nat {
    if marks == [] then 0
    else
      var m, before := marks[|marks| - 1], Failures(marks[..|marks| - 1]);
      if !m.Round? then before else if m.failed then before + 1 else 0
  }

  /** A round that backed off holds back the round after it, whatever becomes of that one. */
  predicate Held(marks: seq<Mark>) {
    forall i :: 0 <= i < |marks| - 1 && marks[i].Round? && marks[i].due && marks[i + 1].Round? ==>
      marks[i + 1].time >= marks[i].time + 1000 * Delay(Streak(marks[..i]))
  }

  /** Two failed rounds with nothing between them are at least the back-off apart that belongs to the
      number of failures before them. */
  predicate Spaced(marks: seq<Mark>) {
    forall i :: 0 <= i < |marks| - 1 && marks[i].Round? && marks[i].failed && marks[i + 1].Round? && marks[i + 1].failed ==>
      marks[i + 1].time >= marks[i].time + 1000 * Delay(Failures(marks[..i]))
  }

  /** Every failed round left an enabled family marked disconnected. */
  predicate AllBackOff(marks: seq<Mark>) {
    forall i :: 0 <= i < |marks| && marks[i].Round? && marks[i].failed ==> marks[i].due
  }

  predicate OnTime(dials: seq<(nat, nat)>) { forall k :: 0 <= k < |dials| ==> dials[k].1 <= dials[k].0 }

  /** The time before which no dial may follow the back-off that ends the log. */
  predicate Waits(marks: seq<Mark>, allow: nat) {
    marks != [] && marks[|marks| - 1].Round? && marks[|marks| - 1].due ==>
      allow == marks[|marks| - 1].time + 1000 * Delay(Streak(marks[..|marks| - 1]))
  }

  predicate PacedBy(marks: seq<Mark>, fails: nat, allow: nat) {
    Held(marks) && fails == Streak(marks) && Waits(marks, allow)
  }

  /** What the marks of one round can say about each other. */
  predicate Consistent(c: Config, m: Mark) {
    m.Round? ==>
      && (m.due ==> m.failed)
      && (!m.failed ==> m.up || (!c.enable4 && !c.enable6))
      && (m.failed ==> c.enable4 || c.enable6)
  }

  predicate AllConsistent(c: Config, marks: seq<Mark>) { forall i :: 0 <= i < |marks| ==> Consistent(c, marks[i]) }

  predicate Paced(c: Config, s: State) {
    PacedBy(s.marks, s.fails, s.allow) && AllConsistent(c, s.marks) && OnTime(s.dials)
  }

  lemma StreakStep(marks: seq<Mark>, m: Mark)
    ensures Streak(marks + [m]) ==
            if !m.Round? then Streak(marks) else if m.due then Streak(marks) + 1 else if m.up then 0 else Streak(marks)
  {
    assert (marks + [m])[..|marks|] == marks;
  }

  /** One more mark keeps the pace: a round must not come before it is allowed, and if it backs off it
      sets the time of the next one. */
  lemma AddMark(marks: seq<Mark>, fails: nat, allow: nat, m: Mark, allow': nat)
    requires PacedBy(marks, fails, allow)
    requires m.Round? ==> m.time >= allow
    requires m.Round? && m.due ==> allow' == m.time + 1000 * Delay(fails)
    ensures PacedBy(marks + [m], Streak(marks + [m]), allow')
  {
    hide Streak, Delay, Held;
    StreakHolds(marks, m, allow);
    assert (marks + [m])[..|marks|] == marks;
    assert (marks + [m])[|marks|] == m;
  }

  lemma StreakHolds(marks: seq<Mark>, m: Mark, allow: nat)
    requires Held(marks) && Waits(marks, allow) && (m.Round? ==> m.time >= allow)
    ensures Held(marks + [m])
  {
    hide Streak, Delay;
    var all := marks + [m];
    forall i | 0 <= i < |all| - 1 && all[i].Round? && all[i].due && all[i + 1].Round?
      ensures all[i + 1].time >= all[i].time + 1000 * Delay(Streak(all[..i]))
    {
      assert all[..i] == marks[..i] && all[i] == marks[i];
      if i + 1 < |marks| {
        assert all[i + 1] == marks[i + 1];
      }
    }
  }

  /** When every failed round backs off, the streak is the number of failures. */
  lemma {:induction false} StreakIsFailures(c: Config, marks: seq<Mark>)
    requires AllConsistent(c, marks) && AllBackOff(marks)
    ensures Streak(marks) == Failures(marks)
    ensures !c.enable4 && !c.enable6 ==> Streak(marks) == 0
  {
    if marks != [] {
      var before := marks[..|marks| - 1];
      assert forall i :: 0 <= i < |before| ==> before[i] == marks[i];
      assert Consistent(c, marks[|marks| - 1]);
      StreakIsFailures(c, before);
    }
  }

  /** When every failed round but the last backs off, the failed rounds are spaced. */
  lemma HeldIsSpaced(c: Config, marks: seq<Mark>)
    requires Held(marks) && AllConsistent(c, marks)
    requires marks != [] ==> AllBackOff(marks[..|marks| - 1])
    ensures Spaced(marks)
  {
    hide Streak, Failures, Delay;
    assert forall k :: 0 <= k < |marks| - 1 ==> marks[..|marks| - 1][k] == marks[k];
    forall i | 0 <= i < |marks| - 1 && marks[i].Round? && marks[i].failed && marks[i + 1].Round? && marks[i + 1].failed
      ensures marks[i + 1].time >= marks[i].time + 1000 * Delay(Failures(marks[..i]))
    {
      assert marks[..|marks| - 1][i].due;
      assert forall k :: 0 <= k < i ==> marks[..i][k] == marks[k];
      StreakIsFailures(c, marks[..i]);
    }
  }

  /** A dial is logged with the time it was allowed at, and changes neither the pace nor the link. */
  lemma DialledKeeps(c: Config, s: State, now: nat, d: Dial)
    ensures var t := Dialled(c, s, now, d);
            && (t.marks, t.fails, t.allow, t.alarm) == (s.marks, s.fails, s.allow, s.alarm)
            && (t.link, t.links, t.queue, t.ps, t.loopback, t.stopped)
               == (s.link, s.links, s.queue, s.ps, s.loopback, s.stopped)
            && t.dials == s.dials + [(now, s.allow)]
  {
  }

  lemma SettleKeepsPace(c: Config, s: State, now: nat, failed: bool)
    requires Paced(c, s) && s.allow <= now && Consistent(c, Round(now, failed, Due(c, s), Up(s)))
    ensures Paced(c, Settle(c, s.(marks := s.marks + [Round(now, failed, Due(c, s), Up(s))]), now))
  {
    hide PacedBy, OnTime, Delay, Streak;
    var m := Round(now, failed, Due(c, s), Up(s));
    var t := Settle(c, s.(marks := s.marks + [m]), now);
    assert s.fails == Streak(s.marks) by { PacedFails(s.marks, s.fails, s.allow); }
    StreakStep(s.marks, m);
    AddMark(s.marks, s.fails, s.allow, m, t.allow);
  }

  lemma PacedFails(marks: seq<Mark>, fails: nat, allow: nat)
    requires PacedBy(marks, fails, allow)
    ensures fails == Streak(marks)
  {
  }

  lemma DialledIsConsistent(c: Config, s: State, now: nat, d: Dial)
    ensures var t := Dialled(c, s, now, d); Consistent(c, Round(now, RoundFails(c, s, d), Due(c, t), Up(t)))
  {
    hide Dialled, RoundFails;
    RoundFailsIs(c, s, now, d);
  }

  lemma StartKeepsPace(c: Config, s: State, now: nat, d: Dial)
    requires Paced(c, s)
    ensures Paced(c, Start(c, s, now, d))
  {
    hide PacedBy, AllConsistent, Consistent, Settle, Dialled, RoundFails;
    if Dials(s, now) {
      DialledKeeps(c, s, now, d);
      DialledIsConsistent(c, s, now, d);
      SettleKeepsPace(c, Dialled(c, s, now, d), now, RoundFails(c, s, d));
    }
  }

  lemma CheckKeepsPace(c: Config, s: State, q: Query)
    ensures var t := Check(c, s, q); (t.marks, t.fails, t.allow, t.dials) == (s.marks, s.fails, s.allow, s.dials)
  {
  }

  lemma OtherMark(c: Config, s: State, m: Mark, allow': nat)
    requires Paced(c, s) && !m.Round?
    ensures Paced(c, s.(marks := s.marks + [m], allow := allow'))
  {
    hide PacedBy, OnTime, Streak;
    PacedFails(s.marks, s.fails, s.allow);
    StreakStep(s.marks, m);
    AddMark(s.marks, s.fails, s.allow, m, allow');
  }

  lemma StepKeepsPace(c: Config, s: State, e: Event)
    requires Enabled(s, e) && Paced(c, s)
    ensures Paced(c, Step(c, s, e))
  {
    hide PacedBy, AllConsistent, OnTime, Start, Check, Due;
    match e
    case Signalled(now, d, q) =>
      var s' := s.(queue := s.queue[1..], alarm := None);
      StartKeepsPace(c, s', now, d);
      CheckKeepsPace(c, s', q);
    case NetworkChanged(now, ps) => OtherMark(c, s, Detached, now);
    case DataCallChanged(now) => OtherMark(c, s, CallChanged, now + 1000);
    case _ =>
  }

  lemma AllButLast(marks: seq<Mark>)
    requires AllBackOff(marks)
    ensures marks != [] ==> AllBackOff(marks[..|marks| - 1])
  {
  }

  /** The condition is exact: a failed round at `now`, after rounds that all backed off, is followed by a
      START at a later time whose round fails too. The log stays spaced exactly when the first round left an
      enabled family marked disconnected, or the START happens to come late enough. */
  lemma SpacedIffBacksOff(c: Config, s: State, now: nat, d: Dial, later: nat, d': Dial)
    requires Paced(c, s) && AllBackOff(s.marks) && Dials(s, now) && RoundFails(c, s, d) && now <= later
    requires RoundFails(c, Start(c, s, now, d), d')
    ensures var t := Start(c, s, now, d);
            Spaced(Start(c, t, later, d').marks) <==> Due(c, t) || later >= now + 1000 * Delay(Failures(s.marks))
  {
    hide RoundFails, Due, Up, Dialled, Delay, Streak, Failures, Paced, AllBackOff, AllConsistent, Held, Spaced;
    var t := Start(c, s, now, d);
    var u := Start(c, t, later, d');
    BacksOffIffDue(c, s, now, d);
    StartKeepsAttached(c, s, now, d);
    StartKeepsPace(c, s, now, d);
    StartKeepsPace(c, t, later, d');
    StartMarks(c, s, now, d);
    StartMarks(c, t, later, d');
    PacedParts(c, t);
    PacedParts(c, u);
    assert t.marks[..|s.marks|] == s.marks && u.marks[..|t.marks|] == t.marks;
    HeldIsSpaced(c, t.marks);
    if Due(c, t) {
      MoreBackOff(s.marks, t.marks[|s.marks|]);
      if Dials(t, later) {
        HeldIsSpaced(c, u.marks);
      }
    } else {
      SpacedMore(t.marks, u.marks[|t.marks|]);
    }
  }

  lemma PacedParts(c: Config, s: State)
    requires Paced(c, s)
    ensures Held(s.marks) && AllConsistent(c, s.marks)
  {
  }

  lemma StartMarks(c: Config, s: State, now: nat, d: Dial)
    ensures var t := Start(c, s, now, d);
            t.marks == if Dials(s, now) then s.marks + [Round(now, RoundFails(c, s, d), Due(c, t), Up(t))] else s.marks
  {
    hide RoundFails, Dialled, Delay;
    DialledKeeps(c, s, now, d);
  }

  lemma MoreBackOff(marks: seq<Mark>, m: Mark)
    requires AllBackOff(marks) && m.Round? && m.due
    ensures AllBackOff(marks + [m])
  {
  }

  lemma SpacedMore(marks: seq<Mark>, m: Mark)
    requires Spaced(marks) && marks != [] && marks[|marks| - 1].Round? && marks[|marks| - 1].failed
    requires m.Round? && m.failed
    ensures Spaced(marks + [m])
            <==> m.time >= marks[|marks| - 1].time + 1000 * Delay(Failures(marks[..|marks| - 1]))
  {
    hide Failures, Delay;
    var all := marks + [m];
    assert forall i :: 0 <= i < |marks| ==> all[..i] == marks[..i] && all[i] == marks[i];
    assert all[|marks| - 1].failed && all[|marks|].failed;
  }

  /** Dialling again at once: the first query fails, so the status stays unknown; two STARTs are then
      handled in the same millisecond and both rounds fail, with no failure counted and no alarm. */
  lemma UnknownStatusDialsAtOnce(q: Query, auth: int)
    requires q.status4 == None
    ensures var c, s0, d := Config(true, false, false), Initial(0, 1, auth), Dial(-1, 0, 0, 0, 0);
            var es := [Signalled(0, d, q), LoopbackSet(true), LoopbackSet(true), Signalled(0, d, q), Signalled(0, d, q)];
            && Possible(c, s0, es)
            && var s := Run(c, s0, es);
            && s.dials == [(0, 0), (0, 0)] && s.fails == 0 && s.alarm == None
            && s.marks == [Round(0, true, false, false), Round(0, true, false, false)] && !Spaced(s.marks)
  {
    var c, s0, d := Config(true, false, false), Initial(0, 1, auth), Dial(-1, 0, 0, 0, 0);
    var e := Signalled(0, d, q);
    var s1 := Step(c, s0, e);
    assert s1.queue == [] && s1.v4 == UNKNOWN && s1.v6 == DISCONNECTED;
    var s2 := Step(c, s1, LoopbackSet(true));
    var s3 := Step(c, s2, LoopbackSet(true));
    assert s3.queue == [START, START];
    var s4 := Step(c, s3, e);
    assert s4.queue == [START] && s4.marks == [Round(0, true, false, false)];
    var s5 := Step(c, s4, e);
    TwoSteps(c, s3, e, e);
    RunCons(c, s2, LoopbackSet(true), [e, e]);
    RunCons(c, s1, LoopbackSet(true), [LoopbackSet(true), e, e]);
    RunCons(c, s0, e, [LoopbackSet(true), LoopbackSet(true), e, e]);
    assert s5.marks[0].failed && s5.marks[1].failed && s5.marks[1].time < s5.marks[0].time + 1000 * Delay(Failures(s5.marks[..0]));
  }

  lemma RunCons(c: Config, s: State, e: Event, rest: seq<Event>)
    requires Enabled(s, e) && Possible(c, Step(c, s, e), rest)
    ensures Possible(c, s, [e] + rest) && Run(c, s, [e] + rest) == Run(c, Step(c, s, e), rest)
  {
    hide Step, Enabled;
    assert ([e] + rest)[1..] == rest;
  }

  lemma TwoSteps(c: Config, s: State, e: Event, f: Event)
    requires Enabled(s, e) && Enabled(Step(c, s, e), f)
    ensures Possible(c, s, [e, f]) && Run(c, s, [e, f]) == Step(c, Step(c, s, e), f)
  {
    hide Step, Enabled;
    assert [e, f][1..] == [f] && [f][1..] == [];
    assert Possible(c, Step(c, Step(c, s, e), f), []);
    assert Possible(c, Step(c, s, e), [f]) && Run(c, Step(c, s, e), [f]) == Step(c, Step(c, s, e), f);
  }

  // ----- the link and DHCP

  /** The link state before the i-th mark: -1 before anything happened. */
  function Before(links: seq<LinkMark>, i: nat): int
    requires i <= |links|
  {
    if i == 0 then -1 else if links[i - 1].Started? then 1 else 0
  }

  /** Each mark is one the link state allowed. */
  predicate Logged(links: seq<LinkMark>) {
    forall i :: 0 <= i < |links| ==>
      match links[i]
      case Started => Before(links, i) != 1
      case Stopped => Before(links, i) != 0
      case Reset(up) => up == (Before(links, i) == 1)
  }

  predicate Tracks(links: seq<LinkMark>, link: int) { link == Before(links, |links|) && Logged(links) }

  predicate LinkTracked(s: State) { Tracks(s.links, s.link) }

  /** Two DHCP commands with no other between them. */
  predicate NextCommand(links: seq<LinkMark>, i: nat, j: nat) {
    i < j < |links| && !links[i].Reset? && !links[j].Reset? && forall k :: i < k < j ==> links[k].Reset?
  }

  /** A modem reset cleared the link while it was up, between two marks. */
  predicate ResetWhileUp(links: seq<LinkMark>, i: nat, j: nat) {
    exists k :: i < k < j && k < |links| && links[k] == Reset(true)
  }

  /** A stop is followed by a start, and two starts follow each other exactly when a modem reset came in
      between while the link was up. */
  ghost predicate StartsAndStops(links: seq<LinkMark>) {
    forall i: nat, j: nat :: NextCommand(links, i, j) ==>
      (links[i] == links[j] <==> links[i].Started? && ResetWhileUp(links, i, j))
  }

  lemma LoggedStartsAndStops(links: seq<LinkMark>)
    requires Logged(links)
    ensures StartsAndStops(links)
  {
    forall i: nat, j: nat | NextCommand(links, i, j)
      ensures links[i] == links[j] <==> links[i].Started? && ResetWhileUp(links, i, j)
    {
      if j > i + 1 {
        assert links[i + 1].Reset? && links[j - 1].Reset?;
        assert Before(links, j) == 0;
        if links[i].Started? {
          assert links[i + 1] == Reset(true);
        }
      }
    }
  }

  /** The last DHCP command was a start. */
  predicate Running(links: seq<LinkMark>) {
    links != [] && (links[|links| - 1].Started? || (links[|links| - 1].Reset? && Running(links[..|links| - 1])))
  }

  lemma AddLink(links: seq<LinkMark>, link: int, m: LinkMark)
    requires Tracks(links, link)
    requires m.Started? ==> link != 1
    requires m.Stopped? ==> link != 0
    requires m.Reset? ==> m.up == (link == 1)
    ensures Tracks(links + [m], if m.Started? then 1 else 0)
    ensures Running(links + [m]) <==> m.Started? || (m.Reset? && Running(links))
  {
    var all := links + [m];
    assert all[..|links|] == links;
    assert Before(all, |links|) == link;
    assert forall i :: 0 <= i < |links| ==> all[i] == links[i] && Before(all, i) == Before(links, i);
  }

  lemma LinkKeeps(s: State, link: int)
    requires LinkTracked(s) && (link == 0 || link == 1)
    ensures LinkTracked(Link(s, link))
    ensures Running(Link(s, link).links) <==> if s.link == link then Running(s.links) else link == 1
  {
    hide Tracks, Running;
    if s.link != link { AddLink(s.links, s.link, if link != 0 then Started else Stopped); }
  }

  lemma StartKeepsLink(c: Config, s: State, now: nat, d: Dial)
    ensures var t := Start(c, s, now, d); (t.link, t.links) == (s.link, s.links)
  {
    hide Dialled, RoundFails, Due, Up, Delay;
    DialledKeeps(c, s, now, d);
  }

  lemma CheckKeepsLink(c: Config, s: State, q: Query)
    requires LinkTracked(s)
    ensures LinkTracked(Check(c, s, q))
    ensures var t := Check(c, s, q);
            Running(t.links) <==>
            if t.v4 == DISCONNECTED && t.v6 == DISCONNECTED then s.link == 0 && Running(s.links)
            else Running(s.links) || Up(t)
  {
    hide Tracks, Link, Queried, Due, Running;
    var v4 := Queried(c.enable4, s.v4, q.status4);
    var s1 := s.(v4 := if c.enable4 && v4 == CONNECTED && !q.sameAddress then DISCONNECTED else v4,
                 v6 := Queried(c.enable6, s.v6, q.status6),
                 released := s.released + if c.enable4 && v4 == CONNECTED && !q.sameAddress then [V4] else []);
    LinkKeeps(s1, 0);
    LinkKeeps(s1, 1);
    LinkFields(s1, 0);
    LinkFields(s1, 1);
    UpIsRunning(s.links, s.link);
  }

  lemma LinkFields(s: State, link: int)
    ensures Link(s, link).v4 == s.v4 && Link(s, link).v6 == s.v6 && Link(s, link).queue == s.queue
  {
  }

  /** While the link is up DHCP runs. */
  lemma UpIsRunning(links: seq<LinkMark>, link: int)
    requires Tracks(links, link)
    ensures link == 1 ==> Running(links)
  {
  }

  lemma StepKeepsLink(c: Config, s: State, e: Event)
    requires Enabled(s, e) && LinkTracked(s)
    ensures LinkTracked(Step(c, s, e))
  {
    hide Tracks, Link, Start, Check, Due, Up, Running;
    match e
    case Signalled(now, d, q) =>
      var s' := s.(queue := s.queue[1..], alarm := None);
      StartKeepsLink(c, s', now, d);
      CheckKeepsLink(c, s', q);
      LinkKeeps(s', 0);
    case ModemReset(restart, ps) => AddLink(s.links, s.link, Reset(s.link == 1));
    case DeviceGone(restart, ps) => LinkKeeps(s, 0);
    case _ =>
  }

  /** After a CHECK the link is up if a family is connected and down if both are disconnected. DHCP runs
      when a family is connected; when both are disconnected it is left running exactly if it ran while
      the link was already down, which a modem reset brings about. */
  lemma LinkAfterCheck(c: Config, s: State, e: Event)
    requires Enabled(s, e) && e.Signalled? && s.queue[0] == CHECK && LinkTracked(s)
    ensures var s' := Step(c, s, e);
            && (Up(s') ==> s'.link == 1 && Running(s'.links))
            && (s'.v4 == DISCONNECTED && s'.v6 == DISCONNECTED ==>
                  s'.link == 0 && (Running(s'.links) <==> s.link == 0 && Running(s.links)))
  {
    hide Running;
    CheckKeepsLink(c, s.(queue := s.queue[1..], alarm := None), e.q);
  }

  /** Two starts in a row, and a DHCP client nobody stops: a CHECK finds IPv4 connected, the modem resets,
      and the next CHECK finds it connected again, or disconnected. */
  lemma ResetLosesDhcp(d: Dial, q1: Query, q2: Query, auth: int)
    requires q1.status4 == Some(CONNECTED) && q1.sameAddress
    requires q2.status4 == Some(CONNECTED) || q2.status4 == Some(DISCONNECTED)
    requires q2.sameAddress
    ensures var c, s0 := Config(true, false, false), Initial(0, 1, auth);
            var es := [Signalled(0, d, q1), ModemReset(true, 1), Signalled(0, d, q2)];
            && Possible(c, s0, es)
            && Run(c, s0, es).links ==
               [Started, Reset(true)] + if q2.status4 == Some(CONNECTED) then [Started] else []
  {
    var c, s0 := Config(true, false, false), Initial(0, 1, auth);
    var e1, e2, e3 := Signalled(0, d, q1), ModemReset(true, 1), Signalled(0, d, q2);
    var s1 := Step(c, s0, e1);
    assert s1.links == [Started] && s1.link == 1;
    var s2 := Step(c, s1, e2);
    assert s2.links == [Started, Reset(true)] && s2.queue == [CHECK];
    TwoSteps(c, s1, e2, e3);
    assert [e1, e2, e3][1..] == [e2, e3];
  }

  // ----- over every run

  predicate Possible(c: Config, s: State, events: seq<Event>)
    decreases |events|
  {
    events == [] || (Enabled(s, events[0]) && Possible(c, Step(c, s, events[0]), events[1..]))
  }

  function Run(c: Config, s: State, events: seq<Event>): State
    requires Possible(c, s, events)
    decreases |events|
  {
    if events == [] then s else Run(c, Step(c, s, events[0]), events[1..])
  }

  /** No START of the run is handled while detached with nothing else pending. */
  predicate NeverDropped(c: Config, s: State, events: seq<Event>)
    requires Possible(c, s, events)
    decreases |events|
  {
    events == [] || (!DroppedWhileDetached(c, s, events[0]) && NeverDropped(c, Step(c, s, events[0]), events[1..]))
  }

  lemma {:induction false} LosesNothingOverRuns(c: Config, s: State, events: seq<Event>)
    requires Possible(c, s, events) && NeverDropped(c, s, events) && NothingLost(c, s)
    ensures NothingLost(c, Run(c, s, events))
    decreases |events|
  {
    hide Step, NothingLost, DroppedWhileDetached;
    if events != [] {
      StepLosesNothing(c, s, events[0]);
      LosesNothingOverRuns(c, Step(c, s, events[0]), events[1..]);
    }
  }

  /** A redial lost while detached is recovered by the next attach: whatever happened before it, nothing is
      lost after it unless another START is dropped. */
  lemma RecoveredByAttach(c: Config, s: State, now: nat, events: seq<Event>)
    requires Enabled(s, NetworkChanged(now, 1)) && Possible(c, Step(c, s, NetworkChanged(now, 1)), events)
    requires NeverDropped(c, Step(c, s, NetworkChanged(now, 1)), events)
    ensures NothingLost(c, Run(c, Step(c, s, NetworkChanged(now, 1)), events))
  {
    hide Step, Run, NeverDropped, Possible;
    AfterAttach(c, s, NetworkChanged(now, 1));
    LosesNothingOverRuns(c, Step(c, s, NetworkChanged(now, 1)), events);
  }

  lemma {:induction false} PacedOverRuns(c: Config, s: State, events: seq<Event>)
    requires Possible(c, s, events) && Paced(c, s) && LinkTracked(s)
    ensures Paced(c, Run(c, s, events)) && LinkTracked(Run(c, s, events))
    decreases |events|
  {
    hide Step, Paced, LinkTracked;
    if events != [] {
      StepKeepsPace(c, s, events[0]);
      StepKeepsLink(c, s, events[0]);
      PacedOverRuns(c, Step(c, s, events[0]), events[1..]);
    }
  }

  /** At every round of the run, each enabled family is marked connected or disconnected. */
  predicate DeterminedRun(c: Config, s: State, events: seq<Event>)
    requires Possible(c, s, events)
    decreases |events|
  {
    events == []
    || ((events[0].Signalled? && s.queue[0] == START && Dials(s, events[0].now) ==> Determined(c, s))
        && DeterminedRun(c, Step(c, s, events[0]), events[1..]))
  }

  lemma StepBacksOff(c: Config, s: State, e: Event)
    requires Enabled(s, e) && AllBackOff(s.marks)
    requires e.Signalled? && s.queue[0] == START && Dials(s, e.now) ==> Determined(c, s)
    ensures AllBackOff(Step(c, s, e).marks)
  {
    hide Start, Check, Due, RoundFails, AllBackOff;
    match e
    case Signalled(now, d, q) =>
      var s' := s.(queue := s.queue[1..], alarm := None);
      StartMarks(c, s', now, d);
      CheckKeepsPace(c, s', q);
      if Dials(s', now) && s.queue[0] == START {
        DeterminedBacksOff(c, s', now, d);
        var t := Start(c, s', now, d);
        OneMore(s.marks, Round(now, RoundFails(c, s', d), Due(c, t), Up(t)));
      }
    case NetworkChanged(now, ps) => OneMore(s.marks, Detached);
    case DataCallChanged(now) => OneMore(s.marks, CallChanged);
    case _ =>
  }

  lemma OneMore(marks: seq<Mark>, m: Mark)
    requires AllBackOff(marks) && (m.Round? && m.failed ==> m.due)
    ensures AllBackOff(marks + [m])
  {
  }

  /** Over such runs every failed round backs off. */
  lemma {:induction false} DeterminedAllBackOff(c: Config, s: State, events: seq<Event>)
    requires Possible(c, s, events) && DeterminedRun(c, s, events) && AllBackOff(s.marks)
    ensures AllBackOff(Run(c, s, events).marks)
    decreases |events|
  {
    hide Step, AllBackOff, Enabled, Dials, Determined;
    if events != [] {
      StepBacksOff(c, s, events[0]);
      DeterminedAllBackOff(c, Step(c, s, events[0]), events[1..]);
    }
  }

  lemma InitialOk(c: Config, now: nat, ps: nat, auth: int)
    ensures Paced(c, Initial(now, ps, auth)) && LinkTracked(Initial(now, ps, auth)) && NothingLost(c, Initial(now, ps, auth))
  {
  }

  lemma NoMarks(c: Config, now: nat, ps: nat, auth: int)
    ensures AllBackOff(Initial(now, ps, auth).marks)
  {
  }

  /** Every run from the start of qmi_main: no dial before its allowed time; a round that backs off holds
      back the next one by 5, 10, 20, 40, 60, 60, ... seconds; if every failed round of the run leaves an
      enabled family marked disconnected, failed rounds with nothing in between are that far apart, and that
      is so when each round finds the enabled families marked connected or disconnected; DHCP
      commands alternate except across a modem reset; and, when no START was dropped while detached,
      nothing is lost. */
  lemma FromStart(c: Config, now: nat, ps: nat, auth: int, events: seq<Event>)
    requires Possible(c, Initial(now, ps, auth), events)
    ensures var s := Run(c, Initial(now, ps, auth), events);
            && (forall k :: 0 <= k < |s.dials| ==> s.dials[k].1 <= s.dials[k].0)
            && Held(s.marks)
            && (AllBackOff(s.marks) ==> Spaced(s.marks))
            && (DeterminedRun(c, Initial(now, ps, auth), events) ==> AllBackOff(s.marks))
            && StartsAndStops(s.links)
            && (NeverDropped(c, Initial(now, ps, auth), events) ==> NothingLost(c, s))
  {
    hide Run, NeverDropped, Possible, DeterminedRun, StartsAndStops, Held, Spaced, AllBackOff;
    InitialOk(c, now, ps, auth);
    PacedOverRuns(c, Initial(now, ps, auth), events);
    var s := Run(c, Initial(now, ps, auth), events);
    LoggedStartsAndStops(s.links);
    if AllBackOff(s.marks) {
      AllButLast(s.marks);
      HeldIsSpaced(c, s.marks);
    }
    if DeterminedRun(c, Initial(now, ps, auth), events) {
      NoMarks(c, now, ps, auth);
      DeterminedAllBackOff(c, Initial(now, ps, auth), events);
    }
    if NeverDropped(c, Initial(now, ps, auth), events) {
      LosesNothingOverRuns(c, Initial(now, ps, auth), events);
    }
  }
}
