/** How the event loop of RedialSpec reacts, across several events and with its numbers written out:
    statuses 1 (disconnected) and 2 (connected), times in milliseconds. */
module RedialReactions {
  import opened Options
  import opened RedialSpec

  /** The back-off in figures: after a failed round that left a family disconnected, a START dials again
      exactly when 5, 10, 20, 40, 60, 60, ... seconds have passed, by the back-offs in a row before it. */
  lemma BackOffInSeconds(c: Config, s: State, now: nat, d: Dial, later: nat, d': Dial)
    requires (s.ps == 1 || s.loopback) && s.allow <= now && RoundFails(c, s, d) && now <= later
    requires Due(c, Start(c, s, now, d))
    ensures var t := Start(c, s, now, d);
            var wait := if s.fails == 0 then 5000 else if s.fails == 1 then 10000 else if s.fails == 2 then 20000
                        else if s.fails == 3 then 40000 else 60000;
            && |Start(c, t, later, d').dials| == |t.dials| + (if later >= now + wait then 1 else 0)
            && t.alarm == Some(now + wait) && t.fails == s.fails + 1
  {
    hide Start, RoundFails, Due;
    NextDial(c, s, now, d, later, d');
    BacksOffIffDue(c, s, now, d);
    StartDials(c, Start(c, s, now, d), later, d');
  }

  /** Fifteen quiet seconds are enough to recover: the CHECK they queue finds a family disconnected and
      queues a START. */
  lemma PollRecovers(c: Config, s: State, now: nat, d: Dial, q: Query)
    requires !s.stopped && s.queue == []
    requires (c.enable4 && q.status4 == Some(1)) || (c.enable6 && q.status6 == Some(1))
    ensures var s1 := Step(c, s, Quiet);
            && Enabled(s1, Signalled(now, d, q))
            && Step(c, s1, Signalled(now, d, q)).queue == [START]
  {
    var s1 := Step(c, s, Quiet);
    assert s1.queue == [CHECK];
    var s2 := s1.(queue := s1.queue[1..], alarm := None);
    assert s2.queue == [];
    CheckReads(c, s2, q);
  }

  /** What a CHECK makes of the modem's answers. */
  lemma CheckReads(c: Config, s: State, q: Query)
    ensures var t := Check(c, s, q);
            && (!c.enable4 ==> t.v4 == 1) && (!c.enable6 ==> t.v6 == 1)
            && (c.enable6 && q.status6.Some? ==> t.v6 == q.status6.value)
            && (c.enable6 && q.status6.None? ==> t.v6 == s.v6)
            && (c.enable4 && q.status4.Some? && q.status4.value != 2 ==> t.v4 == q.status4.value)
            && (c.enable4 && q.status4 == Some(2) ==> t.v4 == if q.sameAddress then 2 else 1)
            && (c.enable4 && q.status4.None? && s.v4 != 2 ==> t.v4 == s.v4)
            && t.released == s.released + (if c.enable4 && !q.sameAddress && (q.status4 == Some(2) || (q.status4.None? && s.v4 == 2))
                                           then [V4] else [])
            && t.queue == s.queue + (if (c.enable4 && t.v4 == 1) || (c.enable6 && t.v6 == 1) then [START] else [])
  {
  }

  /** An alarm that rings when dialling is allowed dials; one that rings too early is armed again. */
  lemma AlarmRedials(c: Config, s: State, now: nat, d: Dial, q: Query)
    requires !s.stopped && s.queue == [] && s.alarm.Some? && s.ps == 1
    ensures var s1 := Step(c, s, AlarmRings);
            && Enabled(s1, Signalled(now, d, q))
            && var s2 := Step(c, s1, Signalled(now, d, q));
               && |s2.dials| == |s.dials| + (if now >= s.allow then 1 else 0)
               && (now < s.allow ==> s2.alarm.Some? && s.allow <= s2.alarm.value < s.allow + 1000)
  {
    hide Start, Check;
    var s1 := Step(c, s, AlarmRings);
    assert s1.queue == [START];
    var s2 := s1.(queue := s1.queue[1..], alarm := None);
    StartDials(c, s2, now, d);
    if now < s.allow {
      TooEarly(c, s2, now, d);
    }
  }

  lemma TooEarly(c: Config, s: State, now: nat, d: Dial)
    requires s.ps == 1 && now < s.allow
    ensures var t := Start(c, s, now, d); t.alarm.Some? && s.allow <= t.alarm.value < s.allow + 1000
  {
  }

  /** SIGTERM stops the loop, with the link down and each connected family the profile enables deactivated. */
  lemma TermStops(c: Config, s: State, now: nat, d: Dial, q: Query)
    requires !s.stopped && s.queue == []
    ensures var s1 := Step(c, s, Terminated);
            && Enabled(s1, Signalled(now, d, q))
            && var s2 := Step(c, s1, Signalled(now, d, q));
               && s2.stopped && s2.link == 0
               && s2.released == s.released + (if c.enable4 && s.v4 == 2 then [V4] else [])
                                            + (if c.enable6 && s.v6 == 2 then [V6] else [])
  {
    hide Start, Check;
    assert Step(c, s, Terminated).queue == [STOP];
  }

  /** From connected to disconnected: a data call indication and a CHECK that finds IPv4 disconnected queue a
      START, which dials exactly when one second has passed since the indication. */
  lemma CallChangeHolds(c: Config, s: State, now: nat, d: Dial, q: Query, checked: nat, later: nat)
    requires !s.stopped && s.queue == [] && s.ps == 1 && c.enable4 && s.v4 == 2 && q.status4 == Some(1)
    ensures var s1 := Step(c, s, DataCallChanged(now));
            && Enabled(s1, Signalled(checked, d, q))
            && var s2 := Step(c, s1, Signalled(checked, d, q));
               && Enabled(s2, Signalled(later, d, q))
               && |Step(c, s2, Signalled(later, d, q)).dials| == |s.dials| + (if later >= now + 1000 then 1 else 0)
  {
    var s1 := Step(c, s, DataCallChanged(now));
    assert s1.queue == [CHECK] && s1.allow == now + 1000;
    var s1' := s1.(queue := s1.queue[1..], alarm := None);
    CheckReads(c, s1', q);
    CheckKeepsPace(c, s1', q);
    CheckKeepsRest(c, s1', q);
    var s2 := Check(c, s1', q);
    assert s2.queue == [START];
    StartDials(c, s2.(queue := s2.queue[1..], alarm := None), later, d);
    hide Start, Check;
  }

  lemma CheckKeepsRest(c: Config, s: State, q: Query)
    ensures var t := Check(c, s, q); (t.ps, t.loopback, t.stopped, t.alarm) == (s.ps, s.loopback, s.stopped, s.alarm)
  {
  }

  /** Losing the network lifts the back-off: once attached again a queued START dials at once. */
  lemma DetachLiftsBackOff(c: Config, s: State, now: nat, again: nat, later: nat, d: Dial, q: Query)
    requires !s.stopped && s.queue != [] && s.queue[0] == START && now <= later
    ensures var s1 := Step(c, s, NetworkChanged(now, 0));
            && Enabled(s1, NetworkChanged(again, 1))
            && var s2 := Step(c, s1, NetworkChanged(again, 1));
               && Enabled(s2, Signalled(later, d, q))
               && |Step(c, s2, Signalled(later, d, q)).dials| == |s.dials| + 1
  {
    hide Start, Check, Due;
    var s2 := Step(c, Step(c, s, NetworkChanged(now, 0)), NetworkChanged(again, 1));
    assert s2.queue[0] == START;
    StartDials(c, s2.(queue := s2.queue[1..], alarm := None), later, d);
  }

  /** Switching the loopback on makes the loop dial although it is detached. */
  lemma LoopbackDials(c: Config, s: State, now: nat, d: Dial, q: Query)
    requires !s.stopped && s.queue == [] && s.ps != 1 && s.allow <= now
    ensures var s1 := Step(c, s, LoopbackSet(true));
            && Enabled(s1, Signalled(now, d, q))
            && |Step(c, s1, Signalled(now, d, q)).dials| == |s.dials| + 1
  {
    hide Start, Check;
    var s1 := Step(c, s, LoopbackSet(true));
    assert s1.queue == [START];
    StartDials(c, s1.(queue := s1.queue[1..], alarm := None), now, d);
  }

  /** The auth mode changes exactly when the first setup is refused, an account is set and the setup with the
      other mode, 1 (pap) or 2 (chap), succeeds. */
  lemma AuthMode(c: Config, s: State, d: Dial)
    requires s.auth == 1 || s.auth == 2
    ensures var t := Dial4(c, s, d);
            && (t.auth == 1 || t.auth == 2)
            && (t.auth != s.auth <==> c.enable4 && s.v4 != 2 && d.setup4 > 0 && c.account && d.retry4 == 0)
  {
  }

  /** A family comes up exactly when it is dialled and both the setup and the address query succeed. */
  lemma ComesUp(c: Config, s: State, now: nat, d: Dial)
    ensures var t := Dialled(c, s, now, d);
            && (t.v4 != s.v4 <==> c.enable4 && s.v4 != 2 && d.address4 == 0
                                  && (d.setup4 == 0 || (d.setup4 > 0 && c.account && d.retry4 == 0)))
            && (t.v6 != s.v6 <==> c.enable6 && s.v6 != 2 && d.setup6 == 0 && d.address6 == 0)
            && (t.v4 == s.v4 || t.v4 == 2) && (t.v6 == s.v6 || t.v6 == 2)
  {
  }

  /** A device that goes away takes the link and DHCP down; if the program waits for it to come back, it starts
      over with a CHECK. */
  lemma DeviceGoneStopsDhcp(c: Config, s: State, restart: bool, ps: nat)
    requires !s.stopped && LinkTracked(s) && s.link == 1
    ensures var t := Step(c, s, DeviceGone(restart, ps));
            && t.link == 0 && !Running(t.links) && t.stopped == !restart
            && (restart ==> t.queue == [CHECK] && t.ps == ps && !t.loopback)
  {
    hide Running, Tracks;
    LinkKeeps(s, 0);
  }

  /** A modem reset starts over with a CHECK as well, or ends the program. */
  lemma ResetStartsOver(c: Config, s: State, restart: bool, ps: nat)
    requires !s.stopped
    ensures var t := Step(c, s, ModemReset(restart, ps));
            && t.link == 0 && t.stopped == !restart && |t.links| == |s.links| + 1
            && (restart ==> t.queue == [CHECK] && t.ps == ps && !t.loopback)
  {
  }
}
