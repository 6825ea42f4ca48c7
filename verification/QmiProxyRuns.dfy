/** What holds over whole runs of the proxy: the CTL requests form a FIFO with one request at the modem. */
module QmiProxyRuns {
  import opened QmiProxySpec
  import opened Seqs

  /** A run so far: the proxy, and everything CTL that crossed its borders. */
  datatype World = World(
    s: State,
    accepted: seq<CtlMsg>,
    ctlToModem: seq<Message>,
    responses: seq<Message>,
    ctlToClients: seq<Delivery>)

  const NEW_PROXY: World := World(State([], [], false), [], [], [], [])

  function Requests(ctl: seq<CtlMsg>): seq<Message> { seq(|ctl|, i requires 0 <= i < |ctl| => ctl[i].qmi) }

  function CtlOnly(msgs: seq<Message>): seq<Message> {
    if msgs == [] then [] else (if msgs[0].qmiType == CTL then [msgs[0]] else []) + CtlOnly(msgs[1..])
  }

  lemma CtlOnlyNone()
    ensures CtlOnly([]) == []
  {
  }

  lemma CtlOnlyOne(m: Message)
    ensures CtlOnly([m]) == if m.qmiType == CTL then [m] else []
  {
    CtlOnlyNone();
    assert [m][1..] == [];
  }

  function CtlDeliveries(ds: seq<Delivery>): seq<Delivery> {
    if ds == [] then [] else (if ds[0].qmi.qmiType == CTL then [ds[0]] else []) + CtlDeliveries(ds[1..])
  }

  function Advance(w: World, e: Event): World {
    var (s', out) := Step(w.s, e);
    World(
      s',
      w.accepted + if e.FromClient? && e.qmi.qmiType == CTL then [CtlMsg(Low(e.fd), e.qmi)] else [],
      w.ctlToModem + CtlOnly(out.toModem),
      w.responses + if e.FromModem? && e.qmi.qmiType == CTL && e.qmi.ctlFlags == FLAG_RSP then [e.qmi] else [],
      w.ctlToClients + CtlDeliveries(out.toClients))
  }

  function Run(w: World, events: seq<Event>): World
    decreases |events|
  {
    if events == [] then w else Run(Advance(w, events[0]), events[1..])
  }

  predicate Queued(ctl: seq<CtlMsg>, fd: int) { exists i :: 0 <= i < |ctl| && ctl[i].fd == fd }

  /** The operating system hands out descriptors whose low byte is not in use, and messages come from
      connections. */
  predicate Sane(s: State, e: Event) {
    match e
    case Accepted(fd) => !Connected(s.conns, Low(fd))
    case FromClient(fd, qmi) => Connected(s.conns, fd)
    case _ => true
  }

  /** The two conditions on the environment that the FIFO needs: a connection closes only with no
      request queued, and the modem emits CTL messages only to answer an outstanding request. */
  predicate Orderly(w: World, e: Event) {
    && Sane(w.s, e)
    && (e.Closed? ==> !Queued(w.s.ctl, e.fd))
    && (e.FromModem? && e.qmi.qmiType == CTL ==>
          e.qmi.ctlFlags == FLAG_RSP && |w.responses| < |w.ctlToModem|)
  }

  predicate OrderlyRun(w: World, events: seq<Event>)
    decreases |events|
  {
    events == [] || (Orderly(w, events[0]) && OrderlyRun(Advance(w, events[0]), events[1..]))
  }

  predicate Distinct(conns: seq<Conn>) {
    && (forall i :: 0 <= i < |conns| ==> conns[i].fd < 256)
    && (forall i, j :: 0 <= i < j < |conns| ==> conns[i].fd != conns[j].fd)
  }

  /** The requests not yet answered. */
  function Outstanding(w: World): seq<Message> {
    if |w.responses| <= |w.ctlToModem| then w.ctlToModem[|w.responses|..] else []
  }

  /** Accepted requests are the answered ones followed by the queue; the modem received the answered
      ones and the queue head, in that order; the k-th response went to the k-th requester alone. */
  predicate Fifo(w: World) {
    && Distinct(w.s.conns)
    && (forall i :: 0 <= i < |w.s.ctl| ==>
          Connected(w.s.conns, w.s.ctl[i].fd) && w.s.ctl[i].qmi.qmiType == CTL)
    && |w.accepted| == |w.responses| + |w.s.ctl|
    && w.accepted[|w.responses|..] == w.s.ctl
    && w.ctlToModem == Requests(w.accepted[..|w.responses| + if w.s.ctl == [] then 0 else 1])
    && |w.ctlToClients| == |w.responses|
    && (forall k :: 0 <= k < |w.responses| ==>
          w.ctlToClients[k] == Delivery(w.accepted[k].fd, w.responses[k]))
  }

  /** The modem never has two requests at once, and what it has is the head of the queue. */
  lemma OneOutstanding(w: World)
    requires Fifo(w)
    ensures Outstanding(w) == if w.s.ctl == [] then [] else [w.s.ctl[0].qmi]
  {
    if w.s.ctl != [] {
      assert w.accepted[|w.responses|] == w.accepted[|w.responses|..][0];
    }
  }

  // ----- a single descriptor among distinct ones

  lemma {:induction false} AnswerOnce(conns: seq<Conn>, fd: nat, qmi: Message)
    requires Distinct(conns)
    ensures Answer(conns, fd, qmi) == if Connected(conns, fd) then [Delivery(fd, qmi)] else []
  {
    if conns != [] {
      ConnectedSplit(conns, fd);
      AnswerOnce(conns[1..], fd, qmi);
    }
  }

  lemma {:induction false} KickOnce(conns: seq<Conn>, head: CtlMsg)
    requires Distinct(conns)
    ensures Kick(conns, head) == if Connected(conns, head.fd) then [head.qmi] else []
  {
    if conns != [] {
      ConnectedSplit(conns, head.fd);
      KickOnce(conns[1..], head);
    }
  }

  lemma ConnectedSplit(conns: seq<Conn>, fd: int)
    requires conns != []
    ensures Connected(conns, fd) <==> conns[0].fd == fd || Connected(conns[1..], fd)
    ensures Distinct(conns) && conns[0].fd == fd ==> !Connected(conns[1..], fd)
  {
    if Connected(conns, fd) && conns[0].fd != fd {
      var i :| 0 <= i < |conns| && conns[i].fd == fd;
      assert conns[1..][i - 1].fd == fd;
    }
    if Connected(conns[1..], fd) {
      var i :| 0 <= i < |conns[1..]| && conns[1..][i].fd == fd;
      assert conns[i + 1].fd == fd;
    }
  }

  lemma {:induction false} LearnAllFds(conns: seq<Conn>, fd: nat, qmi: Message)
    ensures var conns' := LearnAll(conns, fd, qmi);
            |conns'| == |conns| && forall i :: 0 <= i < |conns| ==>
              conns'[i].fd == conns[i].fd
              && conns'[i].clients == if conns[i].fd == fd then Learn(conns[i].clients, qmi) else conns[i].clients
  {
    if conns != [] {
      LearnAllFds(conns[1..], fd, qmi);
    }
  }

  lemma {:induction false} DropConnIs(conns: seq<Conn>, fd: int)
    ensures !Connected(conns, fd) ==> DropConn(conns, fd) == conns
    ensures Connected(conns, fd) ==>
              exists k :: 0 <= k < |conns| && conns[k].fd == fd && DropConn(conns, fd) == conns[..k] + conns[k + 1..]
  {
    hide Connected;
    if conns == [] {
      NoneConnected(fd);
    } else {
      ConnectedSplit(conns, fd);
      if conns[0].fd == fd {
        assert conns[..0] + conns[0 + 1..] == conns[1..];
      } else {
        DropConnIs(conns[1..], fd);
        if Connected(conns, fd) {
          var t := conns[1..];
          var k :| 0 <= k < |t| && t[k].fd == fd && DropConn(t, fd) == t[..k] + t[k + 1..];
          CutLater(conns, k);
          assert conns[k + 1].fd == fd && DropConn(conns, fd) == conns[..k + 1] + conns[k + 1 + 1..];
        }
      }
    }
  }

  lemma {:induction false} DropMsgIs(ctl: seq<CtlMsg>, fd: int)
    ensures !Queued(ctl, fd) ==> DropMsg(ctl, fd) == ctl
    ensures Queued(ctl, fd) ==> |DropMsg(ctl, fd)| == |ctl| - 1
  {
    if ctl != [] {
      assert Queued(ctl, fd) <==> ctl[0].fd == fd || Queued(ctl[1..], fd) by {
        if Queued(ctl, fd) && ctl[0].fd != fd {
          var i :| 0 <= i < |ctl| && ctl[i].fd == fd;
          assert ctl[1..][i - 1].fd == fd;
        }
        if Queued(ctl[1..], fd) {
          var i :| 0 <= i < |ctl[1..]| && ctl[1..][i].fd == fd;
          assert ctl[i + 1].fd == fd;
        }
      }
      DropMsgIs(ctl[1..], fd);
    }
  }

  /** Closing a connection leaves every other one connected. */
  lemma CloseOthers(conns: seq<Conn>, fd: int)
    requires Distinct(conns)
    ensures Distinct(DropConn(conns, fd))
    ensures forall g: int :: Connected(DropConn(conns, fd), g) <==> Connected(conns, g) && g != fd
  {
    DropConnDistinct(conns, fd);
    hide Connected, DropConn, Distinct;
    forall g: int ensures Connected(DropConn(conns, fd), g) <==> Connected(conns, g) && g != fd {
      DropConnMember(conns, fd, g);
    }
  }

  lemma DropConnDistinct(conns: seq<Conn>, fd: int)
    requires Distinct(conns)
    ensures Distinct(DropConn(conns, fd))
  {
    hide Connected, DropConn;
    DropConnIs(conns, fd);
    if Connected(conns, fd) {
      var k :| 0 <= k < |conns| && conns[k].fd == fd && DropConn(conns, fd) == conns[..k] + conns[k + 1..];
    }
  }

  lemma {:induction false} DropConnMember(conns: seq<Conn>, fd: int, g: int)
    requires Distinct(conns)
    ensures Connected(DropConn(conns, fd), g) <==> Connected(conns, g) && g != fd
  {
    hide Connected;
    if conns == [] {
      NoneConnected(g);
    } else {
      ConnectedSplit(conns, g);
      if conns[0].fd != fd {
        DropConnMember(conns[1..], fd, g);
        ConnectedSplit(DropConn(conns, fd), g);
      }
    }
  }

  lemma NoneConnected(fd: int)
    ensures !Connected([], fd)
  {
  }

  // ----- the FIFO over every orderly run

  lemma AcceptKeepsFifo(w: World, fd: int)
    requires Fifo(w) && Orderly(w, Accepted(fd))
    ensures Fifo(Advance(w, Accepted(fd)))
  {
    var conns := w.s.conns + [Conn(Low(fd), [])];
    forall i | 0 <= i < |w.s.ctl| ensures Connected(conns, w.s.ctl[i].fd) {
      assert Connected(w.s.conns, w.s.ctl[i].fd);
      var k :| 0 <= k < |w.s.conns| && w.s.conns[k].fd == w.s.ctl[i].fd;
      assert conns[k].fd == w.s.ctl[i].fd;
    }
  }

  /** A close keeps the FIFO exactly when the connection, if there is one, has no request queued. */
  lemma CloseKeepsFifo(w: World, fd: int)
    requires Fifo(w)
    ensures Fifo(Advance(w, Closed(fd))) <==> !(Connected(w.s.conns, fd) && Queued(w.s.ctl, fd))
  {
    hide DropMsg, DropConn;
    DropMsgIs(w.s.ctl, fd);
    CloseOthers(w.s.conns, fd);
  }

  lemma SendKeepsFifo(w: World, fd: int, qmi: Message)
    requires Fifo(w) && Orderly(w, FromClient(fd, qmi))
    ensures Fifo(Advance(w, FromClient(fd, qmi)))
  {
    CtlOnlyOne(qmi);
    if qmi.qmiType == CTL {
      var w' := Advance(w, FromClient(fd, qmi));
      var n := |w.responses|;
      assert w'.accepted == w.accepted + [CtlMsg(fd, qmi)];
      assert w'.accepted[n..] == w.accepted[n..] + [CtlMsg(fd, qmi)];
      if w.s.ctl == [] {
        assert w.accepted[..n] == w.accepted && w'.accepted[..n + 1] == w'.accepted;
        assert Requests(w'.accepted) == Requests(w.accepted) + [qmi];
      } else {
        assert w'.accepted[..n + 1] == w.accepted[..n + 1];
      }
    }
  }

  /** What a response does, given that only one connection has the head's descriptor. */
  lemma RespondIs(s: State, qmi: Message)
    requires Distinct(s.conns) && s.ctl != [] && qmi.qmiType == CTL && qmi.ctlFlags == FLAG_RSP
    requires forall i :: 0 <= i < |s.ctl| ==> Connected(s.conns, s.ctl[i].fd) && s.ctl[i].qmi.qmiType == CTL
    ensures var (s', out) := Recv(s, qmi);
            && Distinct(s'.conns) && s'.ctl == s.ctl[1..]
            && (forall g: int :: Connected(s.conns, g) ==> Connected(s'.conns, g))
            && out.toClients == [Delivery(s.ctl[0].fd, qmi)]
            && out.toModem == if |s.ctl| == 1 then [] else [s.ctl[1].qmi]
  {
    hide Learn, Connected;
    var fd := s.ctl[0].fd;
    var conns' := LearnAll(s.conns, fd, qmi);
    LearnAllFds(s.conns, fd, qmi);
    SameFds(s.conns, conns');
    AnswerOnce(s.conns, fd, qmi);
    if |s.ctl| > 1 {
      KickOnce(conns', s.ctl[1]);
    }
  }

  lemma RespondKeepsFifo(w: World, qmi: Message)
    requires Fifo(w) && Orderly(w, FromModem(qmi)) && qmi.qmiType == CTL
    ensures Fifo(Advance(w, FromModem(qmi)))
  {
    hide Recv, Connected, Requests;
    var s, n := w.s, |w.responses|;
    OneOutstanding(w);
    RespondIs(s, qmi);
    assert Advance(w, FromModem(qmi)).accepted == w.accepted;
    assert w.accepted[n] == w.accepted[n..][0] == s.ctl[0];
    assert CtlDeliveries([Delivery(s.ctl[0].fd, qmi)]) == [Delivery(s.ctl[0].fd, qmi)];
    assert w.accepted[n + 1..] == w.accepted[n..][1..];
    if |s.ctl| > 1 {
      assert w.accepted[n..][1] == w.accepted[n + 1];
      CtlOnlyOne(s.ctl[1].qmi);
      RequestsSnoc(w.accepted, n + 1);
    }
  }

  lemma RequestsSnoc(ctl: seq<CtlMsg>, n: nat)
    requires n < |ctl|
    ensures Requests(ctl[..n + 1]) == Requests(ctl[..n]) + [ctl[n].qmi]
  {
  }

  lemma SameFds(a: seq<Conn>, b: seq<Conn>)
    requires |a| == |b| && forall i :: 0 <= i < |a| ==> a[i].fd == b[i].fd
    ensures Distinct(a) ==> Distinct(b)
    ensures forall g: int :: Connected(a, g) ==> Connected(b, g)
  {
    forall g: int | Connected(a, g) ensures Connected(b, g) {
      var i :| 0 <= i < |a| && a[i].fd == g;
      assert b[i].fd == g;
    }
  }

  lemma {:induction false} RouteNoCtl(conns: seq<Conn>, qmi: Message)
    requires qmi.qmiType != CTL
    ensures CtlDeliveries(Route(conns, qmi)) == []
  {
    if conns != [] {
      RouteClientsNoCtl(conns[0].fd, conns[0].clients, qmi);
      CtlDeliveriesConcat(RouteClients(conns[0].fd, conns[0].clients, qmi), Route(conns[1..], qmi));
      RouteNoCtl(conns[1..], qmi);
    }
  }

  lemma {:induction false} RouteClientsNoCtl(fd: nat, table: seq<Client>, qmi: Message)
    requires qmi.qmiType != CTL
    ensures CtlDeliveries(RouteClients(fd, table, qmi)) == []
  {
    if table != [] {
      RouteClientsNoCtl(fd, table[1..], qmi);
      var rest := RouteClients(fd, table[1..], qmi);
      CtlDeliveriesConcat([Delivery(fd, qmi)], rest);
      assert [] + rest == rest;
    }
  }

  lemma {:induction false} CtlDeliveriesConcat(a: seq<Delivery>, b: seq<Delivery>)
    ensures CtlDeliveries(a + b) == CtlDeliveries(a) + CtlDeliveries(b)
  {
    if a == [] {
      assert a + b == b;
    } else {
      assert (a + b)[1..] == a[1..] + b;
      CtlDeliveriesConcat(a[1..], b);
      Regroup(if a[0].qmi.qmiType == CTL then [a[0]] else [], CtlDeliveries(a[1..]), CtlDeliveries(b));
    }
  }

  lemma RouteKeepsFifo(w: World, qmi: Message)
    requires Fifo(w) && qmi.qmiType != CTL
    ensures Fifo(Advance(w, FromModem(qmi)))
  {
    RouteNoCtl(w.s.conns, qmi);
  }

  lemma OrderlyStepKeepsFifo(w: World, e: Event)
    requires Fifo(w) && Orderly(w, e)
    ensures Fifo(Advance(w, e))
  {
    match e
    case Accepted(fd) => AcceptKeepsFifo(w, fd);
    case Closed(fd) => CloseKeepsFifo(w, fd);
    case FromClient(fd, qmi) => SendKeepsFifo(w, fd, qmi);
    case FromModem(qmi) =>
      if qmi.qmiType == CTL {
        RespondKeepsFifo(w, qmi);
      } else {
        RouteKeepsFifo(w, qmi);
      }
  }

  /** The FIFO property holds after every orderly run. */
  lemma {:induction false} FifoOverRuns(w: World, events: seq<Event>)
    requires Fifo(w) && OrderlyRun(w, events)
    ensures Fifo(Run(w, events))
    decreases |events|
  {
    if events != [] {
      OrderlyStepKeepsFifo(w, events[0]);
      FifoOverRuns(Advance(w, events[0]), events[1..]);
    }
  }

  /** Every orderly run from the empty proxy keeps at most one request at the modem, the queue head;
      requests reach the modem in arrival order; accepted is answered followed by queued; and every
      response went to the connection that asked. */
  lemma FifoFromStart(events: seq<Event>)
    requires OrderlyRun(NEW_PROXY, events)
    ensures var w := Run(NEW_PROXY, events);
            && |w.accepted| == |w.responses| + |w.s.ctl|
            && w.accepted[|w.responses|..] == w.s.ctl
            && w.ctlToModem <= Requests(w.accepted)
            && Outstanding(w) == (if w.s.ctl == [] then [] else [w.s.ctl[0].qmi])
            && |w.ctlToClients| == |w.responses|
            && forall k :: 0 <= k < |w.responses| ==>
                 w.ctlToClients[k] == Delivery(w.accepted[k].fd, w.responses[k])
  {
    hide Run;
    FifoOverRuns(NEW_PROXY, events);
    OneOutstanding(Run(NEW_PROXY, events));
  }

  /** A CTL message that is not a response re-sends the queue head, so it keeps the FIFO exactly when
      nothing is queued. */
  lemma IndicationKeepsFifo(w: World, qmi: Message)
    requires Fifo(w) && qmi.qmiType == CTL && qmi.ctlFlags != FLAG_RSP
    ensures Fifo(Advance(w, FromModem(qmi))) <==> w.s.ctl == []
  {
    if w.s.ctl != [] {
      var head := w.s.ctl[0];
      KickOnce(w.s.conns, head);
      CtlOnlyOne(head.qmi);
    }
  }

  /** Without the closing condition a response reaches the wrong client: the request in flight is
      forgotten with its connection, and its response is taken for an answer to the next one. */
  lemma ClosingEarlyMisdelivers(q1: Message, q2: Message, answer: Message)
    requires q1.qmiType == CTL && q2.qmiType == CTL
    requires answer.qmiType == CTL && answer.ctlFlags == FLAG_RSP
    ensures var w := Run(NEW_PROXY, [Accepted(5), Accepted(6), FromClient(5, q1), FromClient(6, q2), Closed(5)]);
            && w.ctlToModem == [q1] && w.s.ctl == [CtlMsg(6, q2)]
            && Step(w.s, FromModem(answer)).1.toClients == [Delivery(6, answer)]
  {
    hide Learn;
    var w1 := Advance(NEW_PROXY, Accepted(5));
    var w2 := Advance(w1, Accepted(6));
    var w3 := Advance(w2, FromClient(5, q1));
    var w4 := Advance(w3, FromClient(6, q2));
    var w5 := Advance(w4, Closed(5));
    var c5, c6 := Conn(5, []), Conn(6, []);
    assert w2.s == State([c5, c6], [], false);
    CtlOnlyOne(q1);
    assert w3.s.ctl == [CtlMsg(5, q1)] && w3.ctlToModem == [q1];
    assert w4.s == State([c5, c6], [CtlMsg(5, q1), CtlMsg(6, q2)], false) && w4.ctlToModem == [q1];
    assert w4.s.conns[0].fd == 5;
    assert DropConn([c5, c6], 5) == [c6];
    assert w5.s == State([c6], [CtlMsg(6, q2)], false) && w5.ctlToModem == [q1];
    RunFive(NEW_PROXY, Accepted(5), Accepted(6), FromClient(5, q1), FromClient(6, q2), Closed(5));
    assert Answer([], 6, answer) == [];
    assert Answer([c6], 6, answer) == [Delivery(6, answer)];
  }

  /** A request is sent to the modem twice: it is in flight when a CTL message arrives that is no response. */
  lemma IndicationResends(q: Message, ind: Message)
    requires q.qmiType == CTL && ind.qmiType == CTL && ind.ctlFlags != FLAG_RSP
    ensures var w := Run(NEW_PROXY, [Accepted(5), FromClient(5, q), FromModem(ind)]);
            w.ctlToModem == [q, q] && w.accepted == [CtlMsg(5, q)] && w.responses == []
  {
    var w1 := Advance(NEW_PROXY, Accepted(5));
    var w2 := Advance(w1, FromClient(5, q));
    var w3 := Advance(w2, FromModem(ind));
    var c := Conn(5, []);
    assert w1.s == State([c], [], false);
    CtlOnlyOne(q);
    assert w2.s == State([c], [CtlMsg(5, q)], false) && w2.ctlToModem == [q];
    assert Kick([], CtlMsg(5, q)) == [];
    assert Kick([c], CtlMsg(5, q)) == [q];
    RunThree(NEW_PROXY, Accepted(5), FromClient(5, q), FromModem(ind));
  }

  /** A request stays queued for good: its connection queued two before the shutdown. */
  lemma ShutdownKeepsRequest(q1: Message, q2: Message)
    requires q1.qmiType == CTL && q2.qmiType == CTL
    ensures var w := Run(NEW_PROXY, [Accepted(5), FromClient(5, q1), FromClient(5, q2)]);
            Shutdown(w.s) == State([], [CtlMsg(5, q2)], false)
  {
    var w1 := Advance(NEW_PROXY, Accepted(5));
    var w2 := Advance(w1, FromClient(5, q1));
    var w3 := Advance(w2, FromClient(5, q2));
    var c := Conn(5, []);
    assert w3.s == State([c], [CtlMsg(5, q1), CtlMsg(5, q2)], false);
    assert w3.s.conns[0].fd == 5;
    assert Close(w3.s, 5) == State([], [CtlMsg(5, q2)], false);
    assert Shutdown(State([], [CtlMsg(5, q2)], false)) == State([], [CtlMsg(5, q2)], false);
    RunThree(NEW_PROXY, Accepted(5), FromClient(5, q1), FromClient(5, q2));
  }

  lemma RunThree(w: World, a: Event, b: Event, c: Event)
    ensures Run(w, [a, b, c]) == Advance(Advance(Advance(w, a), b), c)
  {
    hide Advance;
    RunCons(w, a, [b, c]);
    RunCons(Advance(w, a), b, [c]);
    RunCons(Advance(Advance(w, a), b), c, []);
  }

  // ----- what a close with queued requests does

  /** Who gets the next response after a close: the connection whose request is in flight exactly when that
      is not the one that closed, and otherwise the next one in the queue that is still there. */
  lemma CloseMisdelivers(w: World, fd: int, answer: Message)
    requires Fifo(w) && w.s.ctl != [] && answer.qmiType == CTL && answer.ctlFlags == FLAG_RSP
    requires Connected(w.s.conns, fd)
    ensures var s := Close(w.s, fd);
            var asker := w.s.ctl[0].fd;
            var out := Step(s, FromModem(answer)).1.toClients;
            && (out == [Delivery(asker, answer)] <==> asker != fd)
            && (asker == fd ==>
                  out == if |w.s.ctl| > 1 && w.s.ctl[1].fd != fd then [Delivery(w.s.ctl[1].fd, answer)] else [])
  {
    hide DropConn, LearnAll, Connected, Kick;
    var s := Close(w.s, fd);
    CloseOthers(w.s.conns, fd);
    assert forall i :: 0 <= i < |w.s.ctl| ==> Connected(w.s.conns, w.s.ctl[i].fd);
    if s.ctl != [] {
      AnswerOnce(s.conns, s.ctl[0].fd, answer);
    }
  }

  /** Nothing but its head can leave the queue, and the head has no connection. */
  predicate Stuck(s: State) { s.ctl != [] && !Connected(s.conns, s.ctl[0].fd) }

  /** No response comes, which is so when nothing is in flight, and no new connection takes over the
      descriptor of the queue head. */
  predicate Idle(s: State, e: Event) {
    && (e.FromModem? ==> e.qmi.qmiType != CTL || e.qmi.ctlFlags != FLAG_RSP)
    && (e.Accepted? && s.ctl != [] ==> Low(e.fd) != s.ctl[0].fd)
  }

  predicate IdleRun(w: World, events: seq<Event>)
    decreases |events|
  {
    events == [] || (Idle(w.s, events[0]) && IdleRun(Advance(w, events[0]), events[1..]))
  }

  /** A request whose connection is gone blocks the queue: no CTL request of any client reaches the modem. */
  lemma {:induction false} StuckForever(w: World, events: seq<Event>)
    requires Stuck(w.s) && IdleRun(w, events)
    ensures Stuck(Run(w, events).s) && Run(w, events).ctlToModem == w.ctlToModem
    decreases |events|
  {
    hide Stuck, Idle, Advance;
    if events != [] {
      StuckStep(w, events[0]);
      StuckForever(Advance(w, events[0]), events[1..]);
    }
  }

  lemma StuckStep(w: World, e: Event)
    requires Stuck(w.s) && Idle(w.s, e)
    ensures Stuck(Advance(w, e).s) && Advance(w, e).ctlToModem == w.ctlToModem
  {
    hide Connected, DropConn, DropMsg, Route;
    var s, fd := w.s, w.s.ctl[0].fd;
    CtlOnlyNone();
    match e
    case Accepted(g) => StillGone(s.conns, Conn(Low(g), []), fd);
    case Closed(g) =>
      DropConnKeeps(s.conns, g, fd);
      DropMsgFirst(s.ctl, g);
    case FromClient(g, qmi) =>
      CtlOnlyOne(qmi);
    case FromModem(qmi) => KickNobody(s.conns, s.ctl[0]);
  }

  lemma StillGone(conns: seq<Conn>, c: Conn, fd: int)
    requires !Connected(conns, fd) && c.fd != fd
    ensures !Connected(conns + [c], fd)
  {
  }

  lemma {:induction false} DropConnKeeps(conns: seq<Conn>, g: int, fd: int)
    requires !Connected(conns, fd)
    ensures !Connected(DropConn(conns, g), fd)
  {
    DropConnIs(conns, g);
  }

  lemma DropMsgFirst(ctl: seq<CtlMsg>, g: int)
    requires ctl != []
    ensures ctl[0].fd != g ==> DropMsg(ctl, g) != [] && DropMsg(ctl, g)[0] == ctl[0]
  {
  }

  lemma {:induction false} KickNobody(conns: seq<Conn>, head: CtlMsg)
    requires !Connected(conns, head.fd)
    ensures Kick(conns, head) == []
  {
    hide Connected;
    if conns != [] {
      ConnectedSplit(conns, head.fd);
      KickNobody(conns[1..], head);
    }
  }

  /** A close leaves requests without a connection exactly when the client had two or more queued. */
  lemma CloseLeavesOrphan(w: World, fd: int)
    requires Fifo(w) && Connected(w.s.conns, fd)
    ensures var s := Close(w.s, fd);
            && (forall i :: 0 <= i < |s.ctl| ==> (Connected(s.conns, s.ctl[i].fd) <==> s.ctl[i].fd != fd))
            && (Queued(s.ctl, fd) <==> QueuedFrom(w.s.ctl, fd) >= 2)
  {
    hide Connected, DropConn, DropMsg;
    var s := Close(w.s, fd);
    CloseOthers(w.s.conns, fd);
    DropMsgCount(w.s.ctl, fd, fd);
    QueuedIsCounted(s.ctl, fd);
    forall i | 0 <= i < |s.ctl| ensures Connected(w.s.conns, s.ctl[i].fd) {
      DropMsgMember(w.s.ctl, fd, i);
    }
  }

  predicate IsResponse(e: Event) { e.FromModem? && e.qmi.qmiType == CTL && e.qmi.ctlFlags == FLAG_RSP }

  /** The modem answers every request it has, and every one it is sent meanwhile, once, and nothing else
      happens. */
  predicate Drains(w: World, events: seq<Event>)
    decreases |events|
  {
    if events == [] then Outstanding(w) == []
    else Outstanding(w) != [] && IsResponse(events[0]) && Drains(Advance(w, events[0]), events[1..])
  }

  /** One request is at the modem, and the queued requests without a connection are those of `fd`. */
  predicate OneAtModem(w: World, fd: int) {
    && Distinct(w.s.conns)
    && |w.ctlToModem| == |w.responses| + 1
    && forall i :: 0 <= i < |w.s.ctl| ==>
         (Connected(w.s.conns, w.s.ctl[i].fd) <==> w.s.ctl[i].fd != fd) && w.s.ctl[i].qmi.qmiType == CTL
  }

  /** What a response does then: the queue head goes, and the next one is sent if it has a connection. */
  lemma ResponsePops(w: World, fd: int, e: Event)
    requires OneAtModem(w, fd) && IsResponse(e)
    ensures var w' := Advance(w, e);
            && Distinct(w'.s.conns) && |w'.responses| == |w.responses| + 1
            && w'.s.ctl == (if w.s.ctl == [] then [] else w.s.ctl[1..])
            && w'.ctlToModem == w.ctlToModem + (if |w.s.ctl| > 1 && w.s.ctl[1].fd != fd then [w.s.ctl[1].qmi] else [])
            && (forall g: int :: Connected(w'.s.conns, g) <==> Connected(w.s.conns, g))
  {
    hide Connected, Learn;
    var s := w.s;
    CtlOnlyNone();
    if s.ctl != [] {
      var conns' := LearnAll(s.conns, s.ctl[0].fd, e.qmi);
      LearnAllFds(s.conns, s.ctl[0].fd, e.qmi);
      SameFds(s.conns, conns');
      SameFds(conns', s.conns);
      if |s.ctl| > 1 {
        KickOnce(conns', s.ctl[1]);
        CtlOnlyOne(s.ctl[1].qmi);
      }
    }
  }

  lemma {:induction false} DrainEnds(w: World, fd: int, events: seq<Event>)
    requires OneAtModem(w, fd) && Drains(w, events)
    ensures var end := Run(w, events);
            && Outstanding(end) == []
            && (Stuck(end.s) <==> w.s.ctl != [] && Queued(w.s.ctl[1..], fd))
    decreases |events|
  {
    hide Advance, Connected;
    assert |events| > 0;
    var w', ctl := Advance(w, events[0]), w.s.ctl;
    ResponsePops(w, fd, events[0]);
    if |ctl| > 1 {
      var rest := ctl[1..];
      assert rest[0] == ctl[1] && Connected(w.s.conns, ctl[1].fd) <==> ctl[1].fd != fd;
      QueuedSplit(rest, fd);
      if ctl[1].fd != fd {
        assert forall i :: 0 <= i < |rest| ==> rest[i] == ctl[i + 1];
        DrainEnds(w', fd, events[1..]);
      } else {
        assert events[1..] == [];
      }
    } else {
      assert events[1..] == [];
    }
  }

  lemma QueuedSplit(ctl: seq<CtlMsg>, fd: int)
    requires ctl != []
    ensures Queued(ctl, fd) <==> ctl[0].fd == fd || Queued(ctl[1..], fd)
  {
    if Queued(ctl, fd) && ctl[0].fd != fd {
      var i :| 0 <= i < |ctl| && ctl[i].fd == fd;
      assert ctl[1..][i - 1].fd == fd;
    }
    if Queued(ctl[1..], fd) {
      var i :| 0 <= i < |ctl[1..]| && ctl[1..][i].fd == fd;
      assert ctl[i + 1].fd == fd;
    }
  }

  lemma CloseKeepsOneAtModem(w: World, fd: int)
    requires Fifo(w) && Connected(w.s.conns, fd) && w.s.ctl != []
    ensures OneAtModem(Advance(w, Closed(fd)), fd)
  {
    hide Connected, DropConn, DropMsg;
    CloseOthers(w.s.conns, fd);
    CloseLeavesOrphan(w, fd);
    var s := Close(w.s, fd);
    CtlOnlyNone();
    forall i | 0 <= i < |s.ctl| ensures s.ctl[i].qmi.qmiType == CTL {
      DropMsgMember(w.s.ctl, fd, i);
    }
  }

  /** When a close stalls the proxy: once the modem has answered all it has, the queue is stuck exactly when
      a request of the closed connection is left behind the head. */
  lemma CloseStalls(w: World, fd: int, events: seq<Event>)
    requires Fifo(w) && Connected(w.s.conns, fd) && Drains(Advance(w, Closed(fd)), events)
    ensures var s := Close(w.s, fd);
            var end := Run(Advance(w, Closed(fd)), events);
            && Outstanding(end) == []
            && (Stuck(end.s) <==> s.ctl != [] && Queued(s.ctl[1..], fd))
  {
    hide Advance, Connected;
    var closed := Advance(w, Closed(fd));
    ClosedWorld(w, fd);
    if w.s.ctl == [] {
      assert Outstanding(closed) == [];
    } else {
      CloseKeepsOneAtModem(w, fd);
      DrainEnds(closed, fd, events);
    }
  }

  lemma ClosedWorld(w: World, fd: int)
    requires Fifo(w) && Connected(w.s.conns, fd)
    ensures var closed := Advance(w, Closed(fd));
            && closed.s == Close(w.s, fd)
            && closed.ctlToModem == w.ctlToModem && closed.responses == w.responses
            && (w.s.ctl == [] ==> closed.s.ctl == [] && Outstanding(closed) == [])
  {
    hide Connected, DropConn;
    CtlOnlyNone();
  }

  /** Such a run of answers exists, whatever the modem answers. */
  lemma DrainExists(w: World, fd: int, answer: Message) returns (events: seq<Event>)
    requires OneAtModem(w, fd) && answer.qmiType == CTL && answer.ctlFlags == FLAG_RSP
    ensures Drains(w, events)
    decreases |w.s.ctl|
  {
    hide Advance, Connected;
    var e := FromModem(answer);
    var w', ctl := Advance(w, e), w.s.ctl;
    ResponsePops(w, fd, e);
    var rest: seq<Event> := [];
    if |ctl| > 1 && ctl[1].fd != fd {
      assert forall i :: 0 <= i < |ctl[1..]| ==> ctl[1..][i] == ctl[i + 1];
      rest := DrainExists(w', fd, answer);
    }
    events := [e] + rest;
    assert events[1..] == rest;
  }

  /** When the connection that closed was the asker, the answer to the dropped request removes the new head of
      the queue, which was never sent; if that is a request of the closed connection it is lost unanswered. */
  lemma DroppedUnsent(w: World, fd: int, answer: Message)
    requires Fifo(w) && Connected(w.s.conns, fd) && w.s.ctl != [] && w.s.ctl[0].fd == fd
    requires answer.qmiType == CTL && answer.ctlFlags == FLAG_RSP
    ensures var s := Close(w.s, fd);
            var w' := Advance(Advance(w, Closed(fd)), FromModem(answer));
            && s.ctl == w.s.ctl[1..]
            && w'.s.ctl == (if s.ctl == [] then [] else s.ctl[1..])
            && w'.ctlToModem ==
               Requests(w.accepted[..|w.responses| + 1]) + (if |s.ctl| > 1 && s.ctl[1].fd != fd then [s.ctl[1].qmi] else [])
            && (s.ctl != [] && s.ctl[0].fd == fd ==> w'.ctlToClients == w.ctlToClients)
  {
    var closed := Advance(w, Closed(fd));
    ClosedWorld(w, fd);
    CloseKeepsOneAtModem(w, fd);
    ResponsePops(closed, fd, FromModem(answer));
    if closed.s.ctl != [] && closed.s.ctl[0].fd == fd {
      AnswerOnce(closed.s.conns, fd, answer);
      CloseOthers(w.s.conns, fd);
    }
  }

  /** Two clients and three requests queued, the first of them at the modem. */
  function Queue3(a: CtlMsg, b: CtlMsg, c: CtlMsg): World {
    Advance(Advance(Advance(Advance(Advance(NEW_PROXY, Accepted(5)), Accepted(6)), FromClient(a.fd, a.qmi)),
                    FromClient(b.fd, b.qmi)), FromClient(c.fd, c.qmi))
  }

  lemma Queue3Is(a: CtlMsg, b: CtlMsg, c: CtlMsg)
    requires a.fd < 256 && b.fd < 256 && c.fd < 256
    requires a.qmi.qmiType == CTL && b.qmi.qmiType == CTL && c.qmi.qmiType == CTL
    ensures var w := Queue3(a, b, c);
            && w.s == State([Conn(5, []), Conn(6, [])], [a, b, c], false)
            && w.ctlToModem == [a.qmi] && w.responses == []
  {
    hide Advance;
    TwoClients();
    var w2 := Advance(Advance(NEW_PROXY, Accepted(5)), Accepted(6));
    RequestAdded(w2, a);
    RequestAdded(Advance(w2, FromClient(a.fd, a.qmi)), b);
    RequestAdded(Advance(Advance(w2, FromClient(a.fd, a.qmi)), FromClient(b.fd, b.qmi)), c);
  }

  lemma TwoClients()
    ensures var w := Advance(Advance(NEW_PROXY, Accepted(5)), Accepted(6));
            w.s == State([Conn(5, []), Conn(6, [])], [], false) && w.ctlToModem == [] && w.responses == []
  {
    CtlOnlyNone();
  }

  lemma RequestAdded(w: World, m: CtlMsg)
    requires m.fd < 256 && m.qmi.qmiType == CTL
    ensures var w' := Advance(w, FromClient(m.fd, m.qmi));
            && w'.s == w.s.(ctl := w.s.ctl + [m]) && w'.responses == w.responses
            && w'.ctlToModem == w.ctlToModem + if w.s.ctl == [] then [m.qmi] else []
  {
    CtlOnlyOne(m.qmi);
    CtlOnlyNone();
  }

  /** Client 5 closes. */
  lemma CloseFive(w: World)
    requires w.s.conns == [Conn(5, []), Conn(6, [])]
    ensures var w' := Advance(w, Closed(5));
            && w'.s == State([Conn(6, [])], DropMsg(w.s.ctl, 5), w.s.reset)
            && w'.ctlToModem == w.ctlToModem && w'.responses == w.responses
    ensures forall g: int :: Connected([Conn(6, [])], g) <==> g == 6
  {
    CtlOnlyNone();
    assert w.s.conns[0].fd == 5 && [Conn(6, [])][0].fd == 6;
    assert DropConn(w.s.conns, 5) == [Conn(6, [])];
  }

  /** A proxy that stalls: client 6 is being served, client 5 has two requests waiting and closes, and the
      modem answers client 6. Nothing is outstanding, and the second request of client 5 blocks the queue. */
  lemma CloseStallsRun(q0: Message, q1: Message, q2: Message, answer: Message)
    requires q0.qmiType == CTL && q1.qmiType == CTL && q2.qmiType == CTL
    requires answer.qmiType == CTL && answer.ctlFlags == FLAG_RSP
    ensures var w := Run(NEW_PROXY, [Accepted(5), Accepted(6), FromClient(6, q0), FromClient(5, q1), FromClient(5, q2),
                                     Closed(5), FromModem(answer)]);
            w.s.ctl == [CtlMsg(5, q2)] && Stuck(w.s) && Outstanding(w) == [] && w.ctlToModem == [q0]
  {
    hide Advance, Connected, DropMsg;
    var w5 := Queue3(CtlMsg(6, q0), CtlMsg(5, q1), CtlMsg(5, q2));
    Queue3Is(CtlMsg(6, q0), CtlMsg(5, q1), CtlMsg(5, q2));
    var w6 := Advance(w5, Closed(5));
    CloseFive(w5);
    DropSecond(CtlMsg(6, q0), CtlMsg(5, q1), CtlMsg(5, q2));
    assert w6.s.ctl == [CtlMsg(6, q0), CtlMsg(5, q2)];
    ResponsePops(w6, 5, FromModem(answer));
    RunSeven(NEW_PROXY, Accepted(5), Accepted(6), FromClient(6, q0), FromClient(5, q1), FromClient(5, q2),
             Closed(5), FromModem(answer));
  }

  lemma DropSecond(a: CtlMsg, b: CtlMsg, c: CtlMsg)
    requires a.fd != b.fd
    ensures DropMsg([a, b, c], b.fd) == [a, c]
  {
    assert [a, b, c][1..] == [b, c] && [b, c][1..] == [c];
  }

  /** A request lost unsent: client 5 closes while its first request is in flight and its second is next, so
      the answer to the first removes the second, and client 6 is served as if nothing had happened. */
  lemma CloseLosesRequestRun(q1: Message, q2: Message, q3: Message, answer: Message)
    requires q1.qmiType == CTL && q2.qmiType == CTL && q3.qmiType == CTL
    requires answer.qmiType == CTL && answer.ctlFlags == FLAG_RSP
    ensures var w := Run(NEW_PROXY, [Accepted(5), Accepted(6), FromClient(5, q1), FromClient(5, q2), FromClient(6, q3),
                                     Closed(5), FromModem(answer)]);
            w.s.ctl == [CtlMsg(6, q3)] && !Stuck(w.s) && w.ctlToModem == [q1, q3]
  {
    hide Advance, Connected;
    var w5 := Queue3(CtlMsg(5, q1), CtlMsg(5, q2), CtlMsg(6, q3));
    Queue3Is(CtlMsg(5, q1), CtlMsg(5, q2), CtlMsg(6, q3));
    var w6 := Advance(w5, Closed(5));
    CloseFive(w5);
    assert w6.s.ctl == [CtlMsg(5, q2), CtlMsg(6, q3)];
    ResponsePops(w6, 5, FromModem(answer));
    RunSeven(NEW_PROXY, Accepted(5), Accepted(6), FromClient(5, q1), FromClient(5, q2), FromClient(6, q3),
             Closed(5), FromModem(answer));
  }

  lemma RunSeven(w: World, a: Event, b: Event, c: Event, d: Event, e: Event, f: Event, g: Event)
    ensures Run(w, [a, b, c, d, e, f, g]) ==
            Advance(Advance(Advance(Advance(Advance(Advance(Advance(w, a), b), c), d), e), f), g)
  {
    hide Advance;
    RunCons(w, a, [b, c, d, e, f, g]);
    RunCons(Advance(w, a), b, [c, d, e, f, g]);
    RunFive(Advance(Advance(w, a), b), c, d, e, f, g);
  }

  lemma {:induction false} DropMsgMember(ctl: seq<CtlMsg>, fd: int, i: nat)
    requires i < |DropMsg(ctl, fd)|
    ensures exists k :: 0 <= k < |ctl| && ctl[k] == DropMsg(ctl, fd)[i]
  {
    if ctl[0].fd == fd {
      assert ctl[i + 1] == DropMsg(ctl, fd)[i];
    } else if i > 0 {
      DropMsgMember(ctl[1..], fd, i - 1);
      var k :| 0 <= k < |ctl[1..]| && ctl[1..][k] == DropMsg(ctl[1..], fd)[i - 1];
      assert ctl[k + 1] == DropMsg(ctl, fd)[i];
    } else {
      assert ctl[0] == DropMsg(ctl, fd)[0];
    }
  }

  lemma {:induction false} QueuedIsCounted(ctl: seq<CtlMsg>, fd: int)
    ensures Queued(ctl, fd) <==> QueuedFrom(ctl, fd) > 0
  {
    if ctl != [] {
      QueuedIsCounted(ctl[1..], fd);
      if Queued(ctl[1..], fd) {
        var k :| 0 <= k < |ctl[1..]| && ctl[1..][k].fd == fd;
        assert ctl[k + 1].fd == fd;
      }
      if Queued(ctl, fd) && ctl[0].fd != fd {
        var k :| 0 <= k < |ctl| && ctl[k].fd == fd;
        assert ctl[1..][k - 1].fd == fd;
      }
    }
  }

  lemma RunFive(w: World, a: Event, b: Event, c: Event, d: Event, e: Event)
    ensures Run(w, [a, b, c, d, e]) == Advance(Advance(Advance(Advance(Advance(w, a), b), c), d), e)
  {
    hide Advance;
    RunCons(w, a, [b, c, d, e]);
    RunCons(Advance(w, a), b, [c, d, e]);
    RunCons(Advance(Advance(w, a), b), c, [d, e]);
    RunCons(Advance(Advance(Advance(w, a), b), c), d, [e]);
    RunCons(Advance(Advance(Advance(Advance(w, a), b), c), d), e, []);
  }

  lemma RunCons(w: World, e: Event, rest: seq<Event>)
    ensures Run(w, [e] + rest) == Run(Advance(w, e), rest)
  {
    hide Advance;
    assert ([e] + rest)[1..] == rest;
  }

  // ----- service messages

  /** The messages for services, that is all but CTL. */
  function Service(msgs: seq<Message>): seq<Message> {
    if msgs == [] then [] else (if msgs[0].qmiType != CTL then [msgs[0]] else []) + Service(msgs[1..])
  }

  function ServiceDeliveries(ds: seq<Delivery>): seq<Delivery> {
    if ds == [] then [] else (if ds[0].qmi.qmiType != CTL then [ds[0]] else []) + ServiceDeliveries(ds[1..])
  }

  /** Everything a run writes to the modem, and to the clients. */
  function Written(s: State, events: seq<Event>): seq<Message>
    decreases |events|
  {
    if events == [] then [] else Step(s, events[0]).1.toModem + Written(Step(s, events[0]).0, events[1..])
  }

  function Handed(s: State, events: seq<Event>): seq<Delivery>
    decreases |events|
  {
    if events == [] then [] else Step(s, events[0]).1.toClients + Handed(Step(s, events[0]).0, events[1..])
  }

  /** The service messages the clients sent, in order. */
  function ServiceAsked(events: seq<Event>): seq<Message> {
    if events == [] then []
    else
      (if events[0].FromClient? && events[0].qmi.qmiType != CTL then [events[0].qmi] else []) + ServiceAsked(events[1..])
  }

  /** The deliveries that the service messages of the modem are owed, each by the tables at its time. */
  function ServiceOwed(s: State, events: seq<Event>): seq<Delivery>
    decreases |events|
  {
    if events == [] then []
    else
      (if events[0].FromModem? && events[0].qmi.qmiType != CTL then Route(s.conns, events[0].qmi) else [])
      + ServiceOwed(Step(s, events[0]).0, events[1..])
  }

  predicate QueueIsCtl(s: State) { forall i :: 0 <= i < |s.ctl| ==> s.ctl[i].qmi.qmiType == CTL }

  lemma {:induction false} ServiceConcat(a: seq<Message>, b: seq<Message>)
    ensures Service(a + b) == Service(a) + Service(b)
  {
    if a == [] {
      assert a + b == b;
    } else {
      assert (a + b)[1..] == a[1..] + b;
      ServiceConcat(a[1..], b);
      Regroup(if a[0].qmiType != CTL then [a[0]] else [], Service(a[1..]), Service(b));
    }
  }

  lemma {:induction false} ServiceDeliveriesConcat(a: seq<Delivery>, b: seq<Delivery>)
    ensures ServiceDeliveries(a + b) == ServiceDeliveries(a) + ServiceDeliveries(b)
  {
    if a == [] {
      assert a + b == b;
    } else {
      assert (a + b)[1..] == a[1..] + b;
      ServiceDeliveriesConcat(a[1..], b);
      Regroup(if a[0].qmi.qmiType != CTL then [a[0]] else [], ServiceDeliveries(a[1..]), ServiceDeliveries(b));
    }
  }

  lemma {:induction false} KickIsCtl(conns: seq<Conn>, head: CtlMsg)
    requires head.qmi.qmiType == CTL
    ensures Service(Kick(conns, head)) == []
  {
    ServiceSmall();
    if conns != [] {
      KickIsCtl(conns[1..], head);
      ServiceOne(head.qmi);
      ServiceConcat(if conns[0].fd == head.fd then [head.qmi] else [], Kick(conns[1..], head));
    }
  }

  lemma {:induction false} AnswerIsCtl(conns: seq<Conn>, fd: nat, qmi: Message)
    requires qmi.qmiType == CTL
    ensures ServiceDeliveries(Answer(conns, fd, qmi)) == []
  {
    ServiceSmall();
    if conns != [] {
      AnswerIsCtl(conns[1..], fd, qmi);
      assert [Delivery(fd, qmi)][1..] == [];
      ServiceDeliveriesConcat(if conns[0].fd == fd then [Delivery(fd, qmi)] else [], Answer(conns[1..], fd, qmi));
    }
  }

  lemma {:induction false} AllService(ds: seq<Delivery>)
    requires forall d :: d in ds ==> d.qmi.qmiType != CTL
    ensures ServiceDeliveries(ds) == ds
  {
    if ds != [] {
      assert ds[0] in ds;
      AllService(ds[1..]);
    }
  }

  lemma {:induction false} RouteIsService(conns: seq<Conn>, qmi: Message)
    ensures forall d :: d in Route(conns, qmi) ==> d.qmi == qmi
  {
    if conns != [] {
      hide RouteClients;
      RouteClientsAre(conns[0].fd, conns[0].clients, qmi);
      RouteIsService(conns[1..], qmi);
      var first, rest := RouteClients(conns[0].fd, conns[0].clients, qmi), Route(conns[1..], qmi);
      assert Route(conns, qmi) == first + rest;
      forall d: Delivery | d in first + rest ensures d.qmi == qmi {
        assert d in first || d in rest;
      }
    }
  }

  lemma {:induction false} RouteClientsAre(fd: nat, table: seq<Client>, qmi: Message)
    ensures forall d :: d in RouteClients(fd, table, qmi) ==> d.qmi == qmi
  {
    if table != [] {
      RouteClientsAre(fd, table[1..], qmi);
      var rest := RouteClients(fd, table[1..], qmi);
      forall d: Delivery | d in RouteClients(fd, table, qmi) ensures d.qmi == qmi {
        assert d == Delivery(fd, qmi) || d in rest;
      }
    }
  }

  lemma {:induction false} DropMsgIsCtl(ctl: seq<CtlMsg>, fd: int)
    requires forall i :: 0 <= i < |ctl| ==> ctl[i].qmi.qmiType == CTL
    ensures forall i :: 0 <= i < |DropMsg(ctl, fd)| ==> DropMsg(ctl, fd)[i].qmi.qmiType == CTL
  {
    forall i | 0 <= i < |DropMsg(ctl, fd)| ensures DropMsg(ctl, fd)[i].qmi.qmiType == CTL {
      DropMsgMember(ctl, fd, i);
    }
  }

  /** One event: a service message goes to the modem exactly when a client sent it, and to the clients
      exactly as it is routed when the modem sent it. */
  lemma StepService(s: State, e: Event)
    requires QueueIsCtl(s)
    ensures var (s', out) := Step(s, e);
            && QueueIsCtl(s')
            && Service(out.toModem) == (if e.FromClient? && e.qmi.qmiType != CTL then [e.qmi] else [])
            && ServiceDeliveries(out.toClients) ==
               (if e.FromModem? && e.qmi.qmiType != CTL then Route(s.conns, e.qmi) else [])
  {
    hide DropMsg, DropConn, Connected, Kick, Answer, Route, LearnAll;
    ServiceSmall();
    match e
    case Accepted(fd) =>
    case Closed(fd) => DropMsgIsCtl(s.ctl, fd);
    case FromClient(fd, qmi) => ServiceOne(qmi);
    case FromModem(qmi) =>
      if qmi.qmiType == CTL {
        var (s', answers) := Respond(s, qmi);
        if s.ctl != [] {
          AnswerIsCtl(s.conns, s.ctl[0].fd, qmi);
        }
        if s'.ctl != [] {
          KickIsCtl(s'.conns, s'.ctl[0]);
        }
      } else {
        RouteIsService(s.conns, qmi);
        AllService(Route(s.conns, qmi));
      }
  }

  lemma ServiceSmall()
    ensures Service([]) == [] && ServiceDeliveries([]) == []
  {
  }

  lemma ServiceOne(m: Message)
    ensures Service([m]) == if m.qmiType != CTL then [m] else []
  {
    ServiceSmall();
    assert [m][1..] == [];
  }

  /** Over every run the service messages written to the modem are those the clients sent, in order, and the
      service deliveries those the modem's messages are owed, in order. */
  lemma {:induction false} ServiceOverRuns(s: State, events: seq<Event>)
    requires QueueIsCtl(s)
    ensures Service(Written(s, events)) == ServiceAsked(events)
    ensures ServiceDeliveries(Handed(s, events)) == ServiceOwed(s, events)
    decreases |events|
  {
    hide Step, Service, ServiceDeliveries, QueueIsCtl;
    if events == [] {
      ServiceSmall();
    } else {
      var (s', out) := Step(s, events[0]);
      StepService(s, events[0]);
      ServiceOverRuns(s', events[1..]);
      ServiceConcat(out.toModem, Written(s', events[1..]));
      ServiceDeliveriesConcat(out.toClients, Handed(s', events[1..]));
    }
  }

  // ----- shutting down

  /** How many queued requests come from `fd`. */
  function QueuedFrom(ctl: seq<CtlMsg>, fd: int): nat {
    if ctl == [] then 0 else (if ctl[0].fd == fd then 1 else 0) + QueuedFrom(ctl[1..], fd)
  }

  lemma {:induction false} DropMsgCount(ctl: seq<CtlMsg>, fd: int, g: int)
    ensures QueuedFrom(DropMsg(ctl, fd), g) ==
            if g == fd && QueuedFrom(ctl, g) > 0 then QueuedFrom(ctl, g) - 1 else QueuedFrom(ctl, g)
  {
    if ctl != [] {
      DropMsgCount(ctl[1..], fd, g);
    }
  }

  /** Closing every connection frees one queued request for each of them and no more. */
  lemma {:induction false} ShutdownLeaves(s: State, fd: int)
    requires Distinct(s.conns)
    ensures Shutdown(s).conns == []
    ensures var n := QueuedFrom(s.ctl, fd);
            QueuedFrom(Shutdown(s).ctl, fd) == if Connected(s.conns, fd) && n > 0 then n - 1 else n
    decreases |s.conns|
  {
    if s.conns != [] {
      var g := s.conns[0].fd;
      ConnectedSplit(s.conns, fd);
      ConnectedSplit(s.conns, g);
      DropMsgCount(s.ctl, g, fd);
      assert Close(s, g).conns == s.conns[1..];
      ShutdownLeaves(Close(s, g), fd);
    }
  }

  lemma {:induction false} NoneQueued(ctl: seq<CtlMsg>)
    ensures ctl == [] <==> forall fd: int :: QueuedFrom(ctl, fd) == 0
  {
    if ctl != [] {
      assert QueuedFrom(ctl, ctl[0].fd) > 0;
    }
  }

  /** The queue ends up empty exactly when no connection has two requests queued and every request's
      connection is still there. */
  lemma ShutdownEmptiesQueue(s: State)
    requires Distinct(s.conns)
    ensures Shutdown(s).ctl == [] <==>
            forall fd: int :: QueuedFrom(s.ctl, fd) <= if Connected(s.conns, fd) then 1 else 0
  {
    NoneQueued(Shutdown(s).ctl);
    forall fd: int
      ensures var n := QueuedFrom(s.ctl, fd);
              QueuedFrom(Shutdown(s).ctl, fd) == if Connected(s.conns, fd) && n > 0 then n - 1 else n
    {
      ShutdownLeaves(s, fd);
    }
  }
}
