/** The client tables of the proxy over whole runs, and the routing of service messages they decide. */
module QmiProxyTables {
  import opened QmiProxySpec
  import opened QmiProxyRuns

  /** What happened to client ids: granted to a descriptor, released by it, or dropped with it. */
  datatype Ownership = Granted(fd: int, c: Client) | Released(fd: int, c: Client) | Dropped(fd: int)

  predicate Succeeded(qmi: Message) { qmi.result == 0 && qmi.error == 0 }

  /** The ownership change that event `e` in state `s` stands for. */
  function Change(s: State, e: Event): seq<Ownership> {
    match e
    case Closed(fd) => [Dropped(fd)]
    case FromModem(q) =>
      if q.qmiType != CTL || q.ctlFlags != FLAG_RSP || s.ctl == [] || !Succeeded(q) then []
      else if !Connected(s.conns, s.ctl[0].fd) then []
      else if q.ctlType == GET_CLIENT_ID then [Granted(s.ctl[0].fd, Client(q.grantType, q.grantId))]
      else if q.ctlType == RELEASE_CLIENT_ID || q.ctlType == REVOKE_CLIENT_ID then
        [Released(s.ctl[0].fd, Client(q.grantType, q.grantId))]
      else []
    case _ => []
  }

  /** How many grants of `c` to `fd` are left after the releases and drops of the log. */
  function Held(log: seq<Ownership>, fd: int, c: Client): nat {
    if log == [] then 0
    else
      var before := Held(log[..|log| - 1], fd, c);
      match log[|log| - 1]
      case Granted(f, d) => if f == fd && d == c then before + 1 else before
      case Released(f, d) => if f == fd && d == c && before > 0 then before - 1 else before
      case Dropped(f) => if f == fd then 0 else before
  }

  /** The log of a run. */
  function Log(s: State, events: seq<Event>): seq<Ownership>
    decreases |events|
  {
    if events == [] then [] else Change(s, events[0]) + Log(Step(s, events[0]).0, events[1..])
  }

  function After(s: State, events: seq<Event>): State
    decreases |events|
  {
    if events == [] then s else After(Step(s, events[0]).0, events[1..])
  }

  predicate SaneRun(s: State, events: seq<Event>)
    decreases |events|
  {
    events == [] || (Sane(s, events[0]) && SaneRun(Step(s, events[0]).0, events[1..]))
  }

  /** The table of the connection on `fd`, empty when there is none. */
  function Table(conns: seq<Conn>, fd: int): seq<Client> {
    if conns == [] then [] else if conns[0].fd == fd then conns[0].clients else Table(conns[1..], fd)
  }

  /** The tables hold exactly what the log says. */
  ghost predicate Matches(s: State, log: seq<Ownership>) {
    && Distinct(s.conns)
    && forall fd: int, c: Client :: multiset(Table(s.conns, fd))[c] == Held(log, fd, c)
  }

  lemma {:induction false} WithoutCount(table: seq<Client>, c: Client, d: Client)
    ensures multiset(Without(table, c))[d] ==
            if c == d && multiset(table)[d] > 0 then multiset(table)[d] - 1 else multiset(table)[d]
  {
    if table != [] {
      assert table == [table[0]] + table[1..];
      WithoutCount(table[1..], c, d);
    }
  }

  lemma {:induction false} TableDropped(conns: seq<Conn>, fd: int, g: int)
    requires Distinct(conns)
    ensures Table(DropConn(conns, fd), g) == if g == fd then [] else Table(conns, g)
  {
    if conns != [] {
      if conns[0].fd == fd {
        ConnectedSplit(conns, fd);
        NoTable(conns[1..], fd);
      } else {
        TableDropped(conns[1..], fd, g);
      }
    }
  }

  lemma {:induction false} NoTable(conns: seq<Conn>, fd: int)
    ensures !Connected(conns, fd) ==> Table(conns, fd) == []
  {
    if conns != [] {
      ConnectedSplit(conns, fd);
      NoTable(conns[1..], fd);
    }
  }

  lemma {:induction false} TableLearned(conns: seq<Conn>, fd: nat, qmi: Message, g: int)
    ensures Table(LearnAll(conns, fd, qmi), g) ==
            if g == fd && Connected(conns, fd) then Learn(Table(conns, g), qmi) else Table(conns, g)
  {
    hide Learn;
    if conns != [] {
      ConnectedSplit(conns, fd);
      TableLearned(conns[1..], fd, qmi, g);
    }
  }

  lemma {:induction false} TableAccepted(conns: seq<Conn>, fd: nat, g: int)
    requires !Connected(conns, fd)
    ensures Table(conns + [Conn(fd, [])], g) == Table(conns, g)
  {
    if conns == [] {
      assert conns + [Conn(fd, [])] == [Conn(fd, [])];
    } else {
      ConnectedSplit(conns, fd);
      assert (conns + [Conn(fd, [])])[1..] == conns[1..] + [Conn(fd, [])];
      TableAccepted(conns[1..], fd, g);
    }
  }

  lemma HeldSnoc(log: seq<Ownership>, o: Ownership, fd: int, c: Client)
    ensures Held(log + [o], fd, c) ==
            match o
            case Granted(f, d) => if f == fd && d == c then Held(log, fd, c) + 1 else Held(log, fd, c)
            case Released(f, d) =>
              if f == fd && d == c && Held(log, fd, c) > 0 then Held(log, fd, c) - 1 else Held(log, fd, c)
            case Dropped(f) => if f == fd then 0 else Held(log, fd, c)
  {
    assert (log + [o])[..|log|] == log;
  }

  lemma LearnCount(table: seq<Client>, qmi: Message, c: Client)
    ensures var given := Client(qmi.grantType, qmi.grantId);
            var n := multiset(table)[c];
            multiset(Learn(table, qmi))[c] ==
            if !Succeeded(qmi) || given != c then n
            else if qmi.ctlType == GET_CLIENT_ID then n + 1
            else if (qmi.ctlType == RELEASE_CLIENT_ID || qmi.ctlType == REVOKE_CLIENT_ID) && n > 0 then n - 1
            else n
  {
    WithoutCount(table, Client(qmi.grantType, qmi.grantId), c);
  }

  /** One event changes the tables as it changes the log. */
  lemma StepMatches(s: State, log: seq<Ownership>, e: Event)
    requires Matches(s, log) && Sane(s, e)
    ensures Matches(Step(s, e).0, log + Change(s, e))
  {
    var s', log' := Step(s, e).0, log + Change(s, e);
    StepDistinct(s, e);
    forall fd: int, c: Client ensures multiset(Table(s'.conns, fd))[c] == Held(log', fd, c) {
      StepCount(s, log, e, fd, c);
    }
  }

  lemma StepDistinct(s: State, e: Event)
    requires Distinct(s.conns) && Sane(s, e)
    ensures Distinct(Step(s, e).0.conns)
  {
    hide Learn;
    match e
    case Accepted(fd) =>
      assert forall i :: 0 <= i < |s.conns| ==> s.conns[i].fd != Low(fd);
    case Closed(fd) => CloseOthers(s.conns, fd);
    case FromClient(fd, qmi) =>
    case FromModem(qmi) =>
      if s.ctl != [] {
        LearnAllFds(s.conns, s.ctl[0].fd, qmi);
      }
  }

  lemma StepCount(s: State, log: seq<Ownership>, e: Event, fd: int, c: Client)
    requires Matches(s, log) && Sane(s, e)
    ensures multiset(Table(Step(s, e).0.conns, fd))[c] == Held(log + Change(s, e), fd, c)
  {
    hide Held, Learn, Connected;
    assert log + [] == log;
    match e
    case Accepted(f) => TableAccepted(s.conns, Low(f), fd);
    case Closed(f) =>
      TableDropped(s.conns, f, fd);
      HeldSnoc(log, Dropped(f), fd, c);
      NoTable(s.conns, f);
    case FromClient(f, qmi) =>
    case FromModem(qmi) =>
      if qmi.qmiType == CTL && qmi.ctlFlags == FLAG_RSP && s.ctl != [] {
        var f := s.ctl[0].fd;
        TableLearned(s.conns, f, qmi, fd);
        LearnCount(Table(s.conns, fd), qmi, c);
        HeldSnoc(log, Granted(f, Client(qmi.grantType, qmi.grantId)), fd, c);
        HeldSnoc(log, Released(f, Client(qmi.grantType, qmi.grantId)), fd, c);
      }
  }

  /** After every run, each table is what was granted less what was released or dropped. */
  lemma {:induction false} TablesMatchLog(s: State, log: seq<Ownership>, events: seq<Event>)
    requires Matches(s, log) && SaneRun(s, events)
    ensures Matches(After(s, events), log + Log(s, events))
    decreases |events|
  {
    hide Matches, Step, Change, Sane;
    if events == [] {
      assert log + [] == log;
    } else {
      var s', log' := Step(s, events[0]).0, log + Change(s, events[0]);
      StepMatches(s, log, events[0]);
      TablesMatchLog(s', log', events[1..]);
      assert log' + Log(s', events[1..]) == log + Log(s, events);
    }
  }

  /** By number: the modem answers a GET_CLIENT_ID (0x22) of client 5 with success, then a REVOKE (0x24). */
  lemma GrantAndRevoke(q: Message, body: seq<int>)
    requires q.qmiType == 0
    ensures var grant := Message(0, 0, 1, 0x22, 0, 0, 3, 7, body);
            var revoke := Message(0, 0, 1, 0x24, 0, 0, 3, 7, body);
            var w := Run(NEW_PROXY, [Accepted(5), FromClient(5, q), FromModem(grant)]);
            && w.s == State([Conn(5, [Client(3, 7)])], [], false)
            && Step(Step(w.s, FromClient(5, q)).0, FromModem(revoke)).0 == State([Conn(5, [])], [], true)
  {
    var grant := Message(0, 0, 1, 0x22, 0, 0, 3, 7, body);
    var revoke := Message(0, 0, 1, 0x24, 0, 0, 3, 7, body);
    var w1 := Advance(NEW_PROXY, Accepted(5));
    assert w1.s == State([Conn(5, [])], [], false);
    var w2 := Advance(w1, FromClient(5, q));
    assert w2.s == State([Conn(5, [])], [CtlMsg(5, q)], false);
    var w3 := Advance(w2, FromModem(grant));
    assert w2.s.conns[0].fd == 5;
    assert Learn([], grant) == [Client(3, 7)];
    OneConn(Conn(5, []), 5, grant);
    assert w3.s == State([Conn(5, [Client(3, 7)])], [], false);
    RunThree(NEW_PROXY, Accepted(5), FromClient(5, q), FromModem(grant));
    var s4 := Step(w3.s, FromClient(5, q)).0;
    assert s4 == State([Conn(5, [Client(3, 7)])], [CtlMsg(5, q)], false);
    assert s4.conns[0].fd == 5;
    assert Without([Client(3, 7)], Client(3, 7)) == [];
    OneConn(Conn(5, [Client(3, 7)]), 5, revoke);
  }

  /** The worlds of that run. */
  lemma GrantWorlds(q: Message, body: seq<int>)
    requires q.qmiType == 0
    ensures var w1 := Advance(NEW_PROXY, Accepted(5));
            var w2 := Advance(w1, FromClient(5, q));
            && w1.s == State([Conn(5, [])], [], false)
            && w2.s == State([Conn(5, [])], [CtlMsg(5, q)], false) && w2.ctlToModem == [q] && w2.responses == []
            && Advance(w2, FromModem(Message(0, 0, 1, 0x22, 0, 0, 3, 7, body))).s.ctl == []
  {
    hide Change, Orderly, NoRegrant;
    CtlOnlyOne(q);
    OneConn(Conn(5, []), 5, Message(0, 0, 1, 0x22, 0, 0, 3, 7, body));
  }

  lemma GrantIsOrderlyRun(q: Message, body: seq<int>)
    requires q.qmiType == 0
    ensures var grant := Message(0, 0, 1, 0x22, 0, 0, 3, 7, body);
            OrderlyRun(NEW_PROXY, [Accepted(5), FromClient(5, q), FromModem(grant), Closed(5)])
  {
    hide Advance, NoRegrant, NoRegrantRun, Change;
    GrantWorlds(q, body);
    var grant := Message(0, 0, 1, 0x22, 0, 0, 3, 7, body);
    var w1 := Advance(NEW_PROXY, Accepted(5));
    var w2 := Advance(w1, FromClient(5, q));
    var w3 := Advance(w2, FromModem(grant));
    assert w1.s.conns[0].fd == 5 && w2.s.conns[0].fd == 5;
    assert OrderlyRun(Advance(w3, Closed(5)), []);
    assert [Closed(5)] == [Closed(5)] + [];
    OrderlyCons(w3, Closed(5), []);
    OrderlyCons(w2, FromModem(grant), [Closed(5)]);
    OrderlyCons(w1, FromClient(5, q), [FromModem(grant), Closed(5)]);
    OrderlyCons(NEW_PROXY, Accepted(5), [FromClient(5, q), FromModem(grant), Closed(5)]);
  }

  lemma GrantIsNoRegrant(q: Message, body: seq<int>)
    requires q.qmiType == 0
    ensures var grant := Message(0, 0, 1, 0x22, 0, 0, 3, 7, body);
            NoRegrantRun(NEW_PROXY.s, [Accepted(5), FromClient(5, q), FromModem(grant), Closed(5)])
  {
    hide Advance, Orderly, OrderlyRun;
    GrantWorlds(q, body);
    var grant := Message(0, 0, 1, 0x22, 0, 0, 3, 7, body);
    var w1 := Advance(NEW_PROXY, Accepted(5));
    var w2 := Advance(w1, FromClient(5, q));
    var w3 := Advance(w2, FromModem(grant));
    assert w1.s.conns[0].fd == 5 && w2.s.conns[0].fd == 5;
    AdvanceSteps(NEW_PROXY, Accepted(5));
    AdvanceSteps(w1, FromClient(5, q));
    AdvanceSteps(w2, FromModem(grant));
    hide Step;
    assert NoRegrantRun(Step(w3.s, Closed(5)).0, []);
    assert [Closed(5)] == [Closed(5)] + [];
    RegrantCons(w3.s, Closed(5), []);
    assert !HeldBySome(w2.s.conns, Client(3, 7));
    RegrantCons(w2.s, FromModem(grant), [Closed(5)]);
    RegrantCons(w1.s, FromClient(5, q), [FromModem(grant), Closed(5)]);
    RegrantCons(NEW_PROXY.s, Accepted(5), [FromClient(5, q), FromModem(grant), Closed(5)]);
  }

  lemma AdvanceSteps(w: World, e: Event)
    ensures Advance(w, e).s == Step(w.s, e).0
  {
    hide Step;
  }

  /** That run meets the conditions of the FIFO and of the tables, and so does closing the client after it. */
  lemma GrantIsOrderly(q: Message, body: seq<int>)
    requires q.qmiType == 0
    ensures var grant := Message(0, 0, 1, 0x22, 0, 0, 3, 7, body);
            var es := [Accepted(5), FromClient(5, q), FromModem(grant), Closed(5)];
            OrderlyRun(NEW_PROXY, es) && NoRegrantRun(NEW_PROXY.s, es)
  {
    hide Advance, OrderlyRun, NoRegrantRun;
    GrantIsOrderlyRun(q, body);
    GrantIsNoRegrant(q, body);
  }

  lemma OrderlyCons(w: World, e: Event, rest: seq<Event>)
    requires Orderly(w, e) && OrderlyRun(Advance(w, e), rest)
    ensures OrderlyRun(w, [e] + rest)
  {
    hide Orderly, Advance;
    assert ([e] + rest)[1..] == rest;
  }

  lemma RegrantCons(s: State, e: Event, rest: seq<Event>)
    requires NoRegrant(s, e) && NoRegrantRun(Step(s, e).0, rest)
    ensures NoRegrantRun(s, [e] + rest)
  {
    hide NoRegrant, Step;
    assert ([e] + rest)[1..] == rest;
  }

  lemma OneConn(c: Conn, fd: nat, qmi: Message)
    requires c.fd == fd
    ensures LearnAll([c], fd, qmi) == [Conn(fd, Learn(c.clients, qmi))]
  {
    assert [c][1..] == [];
  }

  /** The proxy takes note of a modem reset exactly when a revocation answers a connected client. */
  lemma ResetNoted(s: State, e: Event)
    ensures Step(s, e).0.reset <==>
            || s.reset
            || (e.FromModem? && e.qmi.qmiType == 0 && e.qmi.ctlFlags == 1 && e.qmi.ctlType == 0x24
                && s.ctl != [] && Connected(s.conns, s.ctl[0].fd))
  {
    hide Connected, LearnAll, Answer, Kick, Route, DropConn, DropMsg;
  }

  /** ClientFd keeps the low byte of a descriptor. */
  lemma LowByte(fd: int)
    ensures 0 <= fd < 256 ==> Low(fd) == fd
    ensures Low(fd + 256) == Low(fd)
  {
  }

  // ----- one owner per client id

  /** The modem grants only ids that no connection holds. */
  predicate NoRegrant(s: State, e: Event) {
    && Sane(s, e)
    && forall o :: o in Change(s, e) && o.Granted? ==> !HeldBySome(s.conns, o.c)
  }

  predicate HeldBySome(conns: seq<Conn>, c: Client) { exists i :: 0 <= i < |conns| && c in conns[i].clients }

  predicate NoRegrantRun(s: State, events: seq<Event>)
    decreases |events|
  {
    events == [] || (NoRegrant(s, events[0]) && NoRegrantRun(Step(s, events[0]).0, events[1..]))
  }

  predicate NoDuplicates(table: seq<Client>) { forall i, j :: 0 <= i < j < |table| ==> table[i] != table[j] }

  /** Every client id has at most one entry in all tables together. */
  predicate OneOwner(conns: seq<Conn>) {
    && (forall i :: 0 <= i < |conns| ==> NoDuplicates(conns[i].clients))
    && (forall i, j, c :: 0 <= i < j < |conns| && c in conns[i].clients ==> c !in conns[j].clients)
  }

  lemma {:induction false} WithoutKeeps(table: seq<Client>, c: Client)
    requires NoDuplicates(table)
    ensures NoDuplicates(Without(table, c))
    ensures forall d :: d in Without(table, c) <==> d in table && d != c
  {
    if table != [] {
      assert forall i, j :: 0 <= i < j < |table[1..]| ==> table[1..][i] == table[i + 1] && table[1..][j] == table[j + 1];
      WithoutKeeps(table[1..], c);
      var rest := Without(table[1..], c);
      assert table[0] !in rest;
      assert forall j :: 0 <= j < |rest| ==> rest[j] in rest;
    }
  }

  lemma LearnKeepsOneOwner(conns: seq<Conn>, fd: nat, qmi: Message)
    requires Distinct(conns) && OneOwner(conns)
    requires qmi.ctlType == GET_CLIENT_ID && Succeeded(qmi) && Connected(conns, fd) ==>
               !HeldBySome(conns, Client(qmi.grantType, qmi.grantId))
    ensures OneOwner(LearnAll(conns, fd, qmi))
  {
    hide Without;
    var given := Client(qmi.grantType, qmi.grantId);
    var conns' := LearnAll(conns, fd, qmi);
    LearnAllFds(conns, fd, qmi);
    forall i | 0 <= i < |conns|
      ensures NoDuplicates(conns'[i].clients)
      ensures forall d :: d in conns'[i].clients ==>
                d in conns[i].clients || (d == given && conns[i].fd == fd && !HeldBySome(conns, given))
    {
      WithoutKeeps(conns[i].clients, given);
      if conns[i].fd == fd {
        assert Connected(conns, fd);
      }
    }
  }

  lemma StepKeepsOneOwner(s: State, e: Event)
    requires Distinct(s.conns) && OneOwner(s.conns) && NoRegrant(s, e)
    ensures OneOwner(Step(s, e).0.conns)
  {
    hide LearnAll, Learn, DropConn, DropMsg, Answer, Kick, Route;
    match e
    case Accepted(fd) =>
    case Closed(fd) => DropKeepsOneOwner(s.conns, fd);
    case FromClient(fd, qmi) =>
    case FromModem(qmi) =>
      hide OneOwner;
      if qmi.qmiType == CTL && qmi.ctlFlags == FLAG_RSP && s.ctl != [] {
        GrantNotHeld(s, qmi);
        hide Change, NoRegrant, Connected;
        LearnKeepsOneOwner(s.conns, s.ctl[0].fd, qmi);
      }
  }

  lemma GrantNotHeld(s: State, qmi: Message)
    requires NoRegrant(s, FromModem(qmi)) && s.ctl != []
    requires qmi.qmiType == CTL && qmi.ctlFlags == FLAG_RSP
    ensures qmi.ctlType == GET_CLIENT_ID && Succeeded(qmi) && Connected(s.conns, s.ctl[0].fd) ==>
              !HeldBySome(s.conns, Client(qmi.grantType, qmi.grantId))
  {
    hide Connected, HeldBySome;
    if qmi.ctlType == GET_CLIENT_ID && Succeeded(qmi) && Connected(s.conns, s.ctl[0].fd) {
      assert Granted(s.ctl[0].fd, Client(qmi.grantType, qmi.grantId)) in Change(s, FromModem(qmi));
    }
  }

  lemma DropKeepsOneOwner(conns: seq<Conn>, fd: int)
    requires OneOwner(conns)
    ensures OneOwner(DropConn(conns, fd))
  {
    hide Connected;
    DropConnIs(conns, fd);
  }

  /** If the modem never grants a held id again, no id ever has two owners. */
  lemma {:induction false} OneOwnerOverRuns(s: State, events: seq<Event>)
    requires Distinct(s.conns) && OneOwner(s.conns) && NoRegrantRun(s, events)
    ensures Distinct(After(s, events).conns) && OneOwner(After(s, events).conns)
    decreases |events|
  {
    hide Step, Distinct, OneOwner, NoRegrant;
    if events != [] {
      assert Sane(s, events[0]) by { NoRegrantIsSane(s, events[0]); }
      StepDistinct(s, events[0]);
      StepKeepsOneOwner(s, events[0]);
      OneOwnerOverRuns(Step(s, events[0]).0, events[1..]);
    }
  }

  lemma NoRegrantIsSane(s: State, e: Event)
    requires NoRegrant(s, e)
    ensures Sane(s, e)
  {
  }

  // ----- routing

  predicate Addresses(qmi: Message, c: Client) {
    qmi.qmiType == c.qmiType && (qmi.clientId == 0 || qmi.clientId == c.clientId)
  }

  lemma {:induction false} RouteClientsNone(fd: nat, table: seq<Client>, qmi: Message)
    requires forall c :: c in table ==> !Addresses(qmi, c)
    ensures RouteClients(fd, table, qmi) == []
  {
    if table != [] {
      assert table[0] in table;
      RouteClientsNone(fd, table[1..], qmi);
    }
  }

  lemma {:induction false} RouteClientsOne(fd: nat, table: seq<Client>, qmi: Message)
    requires qmi.clientId != 0 && NoDuplicates(table)
    ensures RouteClients(fd, table, qmi) ==
            if Client(qmi.qmiType, qmi.clientId) in table then [Delivery(fd, qmi)] else []
  {
    var target := Client(qmi.qmiType, qmi.clientId);
    if table != [] {
      assert forall i :: 0 < i < |table| ==> table[1..][i - 1] == table[i];
      if table[0] == target {
        assert target !in table[1..];
      }
      assert NoDuplicates(table[1..]);
      RouteClientsOne(fd, table[1..], qmi);
    }
  }

  /** A message for one client id reaches exactly the connection that owns it, or nobody. */
  lemma {:induction false} Unicast(conns: seq<Conn>, qmi: Message)
    requires OneOwner(conns) && qmi.clientId != 0
    ensures var target := Client(qmi.qmiType, qmi.clientId);
            && (forall i :: 0 <= i < |conns| && target in conns[i].clients ==>
                  Route(conns, qmi) == [Delivery(conns[i].fd, qmi)])
            && (!HeldBySome(conns, target) ==> Route(conns, qmi) == [])
  {
    hide RouteClients;
    var target := Client(qmi.qmiType, qmi.clientId);
    if conns != [] {
      var rest := conns[1..];
      assert forall i :: 0 <= i < |rest| ==> rest[i] == conns[i + 1];
      assert OneOwner(rest);
      Unicast(rest, qmi);
      RouteClientsOne(conns[0].fd, conns[0].clients, qmi);
      if target in conns[0].clients {
        assert !HeldBySome(rest, target);
      } else if HeldBySome(rest, target) {
        var i :| 0 <= i < |rest| && target in rest[i].clients;
        assert target in conns[i + 1].clients;
      }
    }
  }

  /** How many entries of a table are for service type `t`. */
  function OfType(table: seq<Client>, t: nat): nat {
    if table == [] then 0 else (if table[0].qmiType == t then 1 else 0) + OfType(table[1..], t)
  }

  lemma {:induction false} RouteClientsBroadcast(fd: nat, table: seq<Client>, qmi: Message, d: Delivery)
    requires qmi.clientId == 0
    ensures multiset(RouteClients(fd, table, qmi))[d] ==
            if d == Delivery(fd, qmi) then OfType(table, qmi.qmiType) else 0
  {
    if table != [] {
      RouteClientsBroadcast(fd, table[1..], qmi, d);
    }
  }

  /** A message with client id 0 is delivered to each connection once for every client of that type
      it has registered, and to nobody else. */
  lemma {:induction false} Broadcast(conns: seq<Conn>, qmi: Message, fd: nat)
    requires Distinct(conns) && qmi.clientId == 0
    ensures multiset(Route(conns, qmi))[Delivery(fd, qmi)] == OfType(Table(conns, fd), qmi.qmiType)
    ensures forall d :: d in Route(conns, qmi) ==> d.qmi == qmi
  {
    hide RouteClients, OfType;
    if conns == [] {
      assert OfType([], qmi.qmiType) == 0 by { OfTypeEmpty(qmi.qmiType); }
    } else {
      var first, rest := RouteClients(conns[0].fd, conns[0].clients, qmi), Route(conns[1..], qmi);
      Broadcast(conns[1..], qmi, fd);
      forall d: Delivery ensures d in first ==> d == Delivery(conns[0].fd, qmi) {
        RouteClientsBroadcast(conns[0].fd, conns[0].clients, qmi, d);
        assert d in first ==> multiset(first)[d] > 0;
      }
      RouteClientsBroadcast(conns[0].fd, conns[0].clients, qmi, Delivery(fd, qmi));
      ConnectedSplit(conns, conns[0].fd);
      NoTable(conns[1..], conns[0].fd);
      OfTypeEmpty(qmi.qmiType);
    }
  }

  // ----- from the log to the deliveries

  /** What is in the table of a descriptor is in the table of the one connection that has it. */
  lemma {:induction false} TableAt(conns: seq<Conn>, fd: int, c: Client)
    requires Distinct(conns)
    ensures c in Table(conns, fd) <==> exists i :: 0 <= i < |conns| && conns[i].fd == fd && c in conns[i].clients
  {
    if conns != [] {
      var rest := conns[1..];
      assert Distinct(rest);
      TableAt(rest, fd, c);
      if conns[0].fd == fd {
        ConnectedSplit(conns, fd);
        NoTable(rest, fd);
      }
      assert (exists i :: 0 <= i < |rest| && rest[i].fd == fd && c in rest[i].clients)
        ==> exists i :: 0 <= i < |conns| && conns[i].fd == fd && c in conns[i].clients by {
        if i :| 0 <= i < |rest| && rest[i].fd == fd && c in rest[i].clients {
          assert conns[i + 1].fd == fd && c in conns[i + 1].clients;
        }
      }
      forall i | 0 < i < |conns| && conns[i].fd == fd && c in conns[i].clients ensures c in Table(rest, fd) {
        assert rest[i - 1] == conns[i];
      }
    }
  }

  lemma NothingYet()
    ensures Matches(NEW_PROXY.s, []) && Distinct(NEW_PROXY.s.conns) && OneOwner(NEW_PROXY.s.conns)
  {
  }

  lemma {:induction false} NoRegrantRunIsSane(s: State, events: seq<Event>)
    requires NoRegrantRun(s, events)
    ensures SaneRun(s, events)
    decreases |events|
  {
    hide Step, Sane, NoRegrant;
    if events != [] {
      NoRegrantIsSane(s, events[0]);
      NoRegrantRunIsSane(Step(s, events[0]).0, events[1..]);
    }
  }

  /** After every run from the start in which the modem grants no held id again, a message for an id
      reaches exactly the descriptor the id was granted to and has not been released or dropped by since,
      or nobody when there is no such descriptor. */
  lemma UnicastFollowsLog(events: seq<Event>, qmi: Message)
    requires NoRegrantRun(NEW_PROXY.s, events) && qmi.clientId != 0
    ensures var target := Client(qmi.qmiType, qmi.clientId);
            var log, out := Log(NEW_PROXY.s, events), Route(After(NEW_PROXY.s, events).conns, qmi);
            && (forall fd: nat :: Held(log, fd, target) > 0 ==> out == [Delivery(fd, qmi)])
            && ((forall fd: nat :: Held(log, fd, target) == 0) ==> out == [])
  {
    hide Held, Route, NoRegrantRun, After, OneOwner, Distinct;
    var target := Client(qmi.qmiType, qmi.clientId);
    var log, s := Log(NEW_PROXY.s, events), After(NEW_PROXY.s, events);
    NothingYet();
    NoRegrantRunIsSane(NEW_PROXY.s, events);
    TablesMatchLog(NEW_PROXY.s, [], events);
    assert [] + log == log;
    OneOwnerOverRuns(NEW_PROXY.s, events);
    Unicast(s.conns, qmi);
    forall fd: nat | Held(log, fd, target) > 0 ensures Route(s.conns, qmi) == [Delivery(fd, qmi)] {
      assert multiset(Table(s.conns, fd))[target] > 0;
      TableAt(s.conns, fd, target);
      var i :| 0 <= i < |s.conns| && s.conns[i].fd == fd && target in s.conns[i].clients;
    }
    if HeldBySome(s.conns, target) {
      var i :| 0 <= i < |s.conns| && target in s.conns[i].clients;
      TableAt(s.conns, s.conns[i].fd, target);
      assert multiset(Table(s.conns, s.conns[i].fd))[target] > 0;
      assert Held(log, s.conns[i].fd, target) > 0;
    }
  }

  // ----- the connection that asked

  /** The ownership change of an event, credited to the connection whose request the response answers: the
      k-th response answers the k-th request accepted. */
  function Asked(w: World, e: Event): seq<Ownership> {
    match e
    case Closed(fd) => [Dropped(fd)]
    case FromModem(q) =>
      if q.qmiType != CTL || q.ctlFlags != FLAG_RSP || !Succeeded(q) || |w.responses| >= |w.accepted| then []
      else
        var asker := w.accepted[|w.responses|].fd;
        if q.ctlType == GET_CLIENT_ID then [Granted(asker, Client(q.grantType, q.grantId))]
        else if q.ctlType == RELEASE_CLIENT_ID || q.ctlType == REVOKE_CLIENT_ID then
          [Released(asker, Client(q.grantType, q.grantId))]
        else []
    case _ => []
  }

  function AskedLog(w: World, events: seq<Event>): seq<Ownership>
    decreases |events|
  {
    if events == [] then [] else Asked(w, events[0]) + AskedLog(Advance(w, events[0]), events[1..])
  }

  /** In an orderly step the proxy credits an id to the connection that asked for it. */
  lemma ChangeIsAsked(w: World, e: Event)
    requires Fifo(w) && Orderly(w, e)
    ensures Change(w.s, e) == Asked(w, e)
  {
    hide Connected;
    if e.FromModem? && w.s.ctl != [] {
      assert w.accepted[|w.responses|..][0] == w.s.ctl[0];
      assert Connected(w.s.conns, w.s.ctl[0].fd);
    }
  }

  lemma {:induction false} LogIsAskedLog(w: World, events: seq<Event>)
    requires Fifo(w) && OrderlyRun(w, events)
    ensures Log(w.s, events) == AskedLog(w, events)
    decreases |events|
  {
    hide Fifo, Orderly, Change, Asked, Step;
    if events != [] {
      ChangeIsAsked(w, events[0]);
      OrderlyStepKeepsFifo(w, events[0]);
      LogIsAskedLog(Advance(w, events[0]), events[1..]);
    }
  }

  /** Over every orderly run in which the modem grants no held id again, a message for an id reaches exactly
      the connection that asked for the id and has neither released it nor closed since, or nobody. */
  lemma UnicastReachesAsker(events: seq<Event>, qmi: Message)
    requires OrderlyRun(NEW_PROXY, events) && NoRegrantRun(NEW_PROXY.s, events) && qmi.clientId != 0
    ensures var target := Client(qmi.qmiType, qmi.clientId);
            var log, out := AskedLog(NEW_PROXY, events), Route(Run(NEW_PROXY, events).s.conns, qmi);
            && (forall fd: nat :: Held(log, fd, target) > 0 ==> out == [Delivery(fd, qmi)])
            && ((forall fd: nat :: Held(log, fd, target) == 0) ==> out == [])
  {
    hide Held, Route, NoRegrantRun, OrderlyRun, After, Run, Log, AskedLog;
    UnicastFollowsLog(events, qmi);
    LogIsAskedLog(NEW_PROXY, events);
    AfterIsRun(NEW_PROXY, events);
  }

  /** The run of the FIFO results is the run of the table results. */
  lemma {:induction false} AfterIsRun(w: World, events: seq<Event>)
    ensures Run(w, events).s == After(w.s, events)
    decreases |events|
  {
    hide Step;
    if events != [] {
      AfterIsRun(Advance(w, events[0]), events[1..]);
    }
  }

  lemma OfTypeEmpty(t: nat)
    ensures OfType([], t) == 0
  {
  }
}
