/** The MBIM proxy as a step system (mobile/quectel-CM/src/quectel-mbim-proxy.c): up to 32 clients share
    one modem, told apart by the top byte of the transaction id. */
module MbimProxySpec {
  const MAX_CLIENT: nat := 32
  const TID_LIMIT: nat := 0x1_000000
  const WORD: nat := 0x1_0000_0000

  datatype Slot = Slot(fd: int, idx: int)

  predicate Live(c: Slot) { c.fd > 0 }

  /** A message handed to a client: which connection, over which descriptor, carrying which id. */
  datatype Given = Given(who: nat, fd: int, id: nat)

  /** `owner[i]` numbers the connection that took slot i last: connections are numbered as accepted, so a
      reused descriptor is told apart from its earlier holder. `sent` and `given` log what went out. */
  datatype State = State(table: seq<Slot>, owner: seq<nat>, accepts: nat, sent: seq<nat>, given: seq<Given>)

  /** What poll reports; Restarted is the return from proxy_loop, after which main clears the table. */
  datatype Event = Accepted(fd: int) | Gone(fd: int) | Asked(fd: int, id: nat) | Answered(id: nat) | Restarted

  function Initial(): (s: State)
    ensures Inv(s)
  {
    State(Cleared(), seq(MAX_CLIENT, _ => 0), 0, [], [])
  }

  function Cleared(): seq<Slot> { seq(MAX_CLIENT, _ => Slot(0, 0)) }

  /** The first place from i on where p holds, or the length. */
  function First(t: seq<Slot>, p: Slot -> bool, i: nat): (r: nat)
    requires i <= |t|
    ensures i <= r <= |t|
    ensures forall k :: i <= k < r ==> !p(t[k])
    ensures r < |t| ==> p(t[r])
    decreases |t| - i
  {
    if i == |t| || p(t[i]) then i else First(t, p, i + 1)
  }

  function Free(): Slot -> bool { (c: Slot) => c.fd <= 0 }
  function HeldBy(fd: int): Slot -> bool { (c: Slot) => c.fd == fd }
  function Addressed(idx: int): Slot -> bool { (c: Slot) => c.idx == idx && c.fd > 0 }

  /** (id & TID_MASK) + (idx << TID_SHIFT) on unsigned 32-bit numbers. */
  function Rewrite(id: nat, idx: int): nat {
    (id % TID_LIMIT + idx * TID_LIMIT) % WORD
  }

  function Broadcast(t: seq<Slot>, owner: seq<nat>, id: nat, i: nat): seq<Given>
    requires i <= |t| == |owner|
    decreases |t| - i
  {
    if i == |t| then []
    else (if Live(t[i]) then [Given(owner[i], t[i].fd, id)] else []) + Broadcast(t, owner, id, i + 1)
  }

  /** handle_device_response: who gets the message, with which id. */
  function Deliveries(t: seq<Slot>, owner: seq<nat>, id: nat): seq<Given>
    requires |t| == |owner|
  {
    if id == 0 then Broadcast(t, owner, id, 0)
    else
      var i := First(t, Addressed(id / TID_LIMIT), 0);
      if i < |t| then [Given(owner[i], t[i].fd, id % TID_LIMIT)] else []
  }

  predicate Shape(s: State) { |s.table| == |s.owner| == MAX_CLIENT }

  function Step(s: State, e: Event): (s': State)
    requires Shape(s)
    ensures Shape(s')
  {
    match e
    case Accepted(fd) =>
      var i := First(s.table, Free(), 0);
      if i < MAX_CLIENT
      then s.(table := s.table[i := Slot(fd, i + 1)], owner := s.owner[i := s.accepts], accepts := s.accepts + 1)
      else s.(accepts := s.accepts + 1)
    case Gone(fd) =>
      var i := First(s.table, HeldBy(fd), 0);
      if i < MAX_CLIENT && fd > 0 then s.(table := s.table[i := s.table[i].(fd := -1)]) else s
    case Asked(fd, id) =>
      var i := First(s.table, HeldBy(fd), 0);
      if i < MAX_CLIENT && s.table[i].idx != -1 then s.(sent := s.sent + [Rewrite(id, s.table[i].idx)]) else s
    case Answered(id) => s.(given := s.given + Deliveries(s.table, s.owner, id))
    case Restarted => s.(table := Cleared())
  }

  /** What the operating system guarantees: accept returns no descriptor the proxy still holds, only
      polled descriptors, which are positive, are read or hang up, and ids are 32 bits wide. */
  predicate Orderly(s: State, e: Event) {
    match e
    case Accepted(fd) => fd >= 0 && forall i :: 0 <= i < |s.table| && Live(s.table[i]) ==> s.table[i].fd != fd
    case Gone(fd) => fd > 0
    case Asked(fd, id) => fd > 0 && id < WORD
    case Answered(id) => id < WORD
    case Restarted => true
  }

  // ----- the table over every run

  predicate SlotOk(s: State, i: nat)
    requires Shape(s) && i < MAX_CLIENT
  {
    && (s.table[i].idx == 0 || s.table[i].idx == i + 1)
    && (Live(s.table[i]) ==> s.table[i].idx == i + 1 && s.owner[i] < s.accepts)
  }

  predicate Apart(s: State, i: nat, j: nat)
    requires Shape(s) && i < MAX_CLIENT && j < MAX_CLIENT
  {
    i != j && Live(s.table[i]) && Live(s.table[j]) ==> s.table[i].fd != s.table[j].fd && s.owner[i] != s.owner[j]
  }

  /** An id the modem has seen is not 0 and names the slot of a client. */
  predicate Tagged(id: nat) { id < WORD && 1 <= id / TID_LIMIT <= MAX_CLIENT }

  /** Live slot i carries index i + 1, no two live slots share a descriptor or a connection, and every id
      sent to the modem is tagged. */
  predicate Inv(s: State) {
    && Shape(s)
    && (forall i: nat :: i < MAX_CLIENT ==> SlotOk(s, i))
    && (forall i: nat, j: nat :: i < MAX_CLIENT && j < MAX_CLIENT ==> Apart(s, i, j))
    && (forall k :: 0 <= k < |s.sent| ==> Tagged(s.sent[k]))
  }

  lemma RewriteTags(id: nat, i: nat)
    requires i < MAX_CLIENT
    ensures Rewrite(id, i + 1) == id % TID_LIMIT + (i + 1) * TID_LIMIT
    ensures Tagged(Rewrite(id, i + 1))
    ensures Rewrite(id, i + 1) / TID_LIMIT == i + 1
    ensures Rewrite(id, i + 1) % TID_LIMIT == id % TID_LIMIT
    ensures Rewrite(id, i + 1) != 0
  {
    var low := id % TID_LIMIT;
    assert low + (i + 1) * TID_LIMIT < WORD;
  }

  /** In figures: 32 slots, and the client in slot i sends its ids below 2^24 as (i + 1) * 2^24 more, and gets
      them back whole. */
  lemma IdsByNumber(id: nat, i: nat)
    requires i < 32 && id < 0x1000000
    ensures MAX_CLIENT == 32 && Rewrite(id, i + 1) == id + 0x1000000 * (i + 1)
    ensures Rewrite(id, i + 1) / 0x1000000 == i + 1 && Rewrite(id, i + 1) % 0x1000000 == id
  {
    RewriteTags(id, i);
  }

  /** Ids sent for different clients, or for ids that differ in their low 24 bits, differ. */
  lemma RewriteInjective(x: nat, i: nat, y: nat, j: nat)
    requires i < MAX_CLIENT && j < MAX_CLIENT
    ensures Rewrite(x, i + 1) == Rewrite(y, j + 1) <==> i == j && x % TID_LIMIT == y % TID_LIMIT
  {
    RewriteTags(x, i);
    RewriteTags(y, j);
  }

  lemma StepKeepsInv(s: State, e: Event)
    requires Inv(s) && Orderly(s, e)
    ensures Inv(Step(s, e))
  {
    var s' := Step(s, e);
    if e.Asked? {
      var i := First(s.table, HeldBy(e.fd), 0);
      if i < MAX_CLIENT {
        assert SlotOk(s, i);
        RewriteTags(e.id, i);
      }
    }
    forall i: nat | i < MAX_CLIENT ensures SlotOk(s', i) {
      assert SlotOk(s, i);
    }
    forall i: nat, j: nat | i < MAX_CLIENT && j < MAX_CLIENT ensures Apart(s', i, j) {
      assert Apart(s, i, j) && SlotOk(s, i) && SlotOk(s, j);
    }
  }

  /** Nothing else is asked of the environment: any client may ask and go, and the proxy may restart, at any
      time, and any descriptor not in use may be accepted. */
  lemma AnythingElseGoes(s: State, fd: int, id: nat)
    requires 0 <= id < 0x1_0000_0000
    ensures fd > 0 ==> Orderly(s, Asked(fd, id)) && Orderly(s, Gone(fd))
    ensures Orderly(s, Answered(id)) && Orderly(s, Restarted)
    ensures fd >= 0 && (forall c :: c in s.table ==> c.fd != fd) ==> Orderly(s, Accepted(fd))
  {
  }

  /** A client is taken in exactly when some slot is free, and then takes the lowest one. */
  lemma Admission(s: State, fd: int)
    requires Inv(s) && Orderly(s, Accepted(fd)) && fd > 0
    ensures var s' := Step(s, Accepted(fd));
            && ((exists i: nat :: i < MAX_CLIENT && s'.table[i].fd == fd)
                <==> (exists i: nat :: i < MAX_CLIENT && !Live(s.table[i])))
            && (forall i: nat :: i < MAX_CLIENT && s'.table[i].fd == fd ==>
                  s'.owner[i] == s.accepts && forall j: nat :: j < i ==> Live(s.table[j]))
  {
    var i := First(s.table, Free(), 0);
    var s' := Step(s, Accepted(fd));
    if i < MAX_CLIENT {
      assert s'.table[i].fd == fd && !Live(s.table[i]);
    }
    assert forall k: nat :: k < MAX_CLIENT && k != i ==> s'.table[k] == s.table[k];
    assert forall k: nat :: k < MAX_CLIENT && s.table[k].fd == fd ==> !Live(s.table[k]);
  }

  // ----- where messages go

  /** The slot a live descriptor is found at is its own. */
  lemma FindHolder(s: State, i: nat)
    requires Inv(s) && i < MAX_CLIENT && Live(s.table[i])
    ensures First(s.table, HeldBy(s.table[i].fd), 0) == i
  {
    var k := First(s.table, HeldBy(s.table[i].fd), 0);
    assert HeldBy(s.table[i].fd)(s.table[i]);
    assert Apart(s, k, i);
  }

  lemma FindAddressed(s: State, i: nat)
    requires Inv(s) && i < MAX_CLIENT
    ensures First(s.table, Addressed(i + 1), 0) == if Live(s.table[i]) then i else MAX_CLIENT
  {
    var k := First(s.table, Addressed(i + 1), 0);
    assert SlotOk(s, i);
    if Live(s.table[i]) {
      assert Addressed(i + 1)(s.table[i]);
    }
    if k < MAX_CLIENT {
      assert SlotOk(s, k);
    }
  }

  /** An id rewritten for slot i goes to whoever holds slot i when the answer comes, or to nobody. */
  lemma AnswerGoesToSlot(s: State, i: nat, x: nat)
    requires Inv(s) && i < MAX_CLIENT
    ensures Deliveries(s.table, s.owner, Rewrite(x, i + 1))
            == if Live(s.table[i]) then [Given(s.owner[i], s.table[i].fd, x % TID_LIMIT)] else []
  {
    RewriteTags(x, i);
    FindAddressed(s, i);
  }

  lemma {:induction false} BroadcastAt(s: State, i: nat)
    requires Inv(s) && i <= MAX_CLIENT
    ensures forall g :: g in Broadcast(s.table, s.owner, 0, i) <==>
              exists k: nat :: i <= k < MAX_CLIENT && Live(s.table[k]) && g == Given(s.owner[k], s.table[k].fd, 0)
    ensures forall a, b :: 0 <= a < b < |Broadcast(s.table, s.owner, 0, i)| ==>
              Broadcast(s.table, s.owner, 0, i)[a] != Broadcast(s.table, s.owner, 0, i)[b]
    decreases MAX_CLIENT - i
  {
    if i < MAX_CLIENT {
      BroadcastAt(s, i + 1);
      var rest := Broadcast(s.table, s.owner, 0, i + 1);
      var here := Given(s.owner[i], s.table[i].fd, 0);
      forall g | g in rest ensures Live(s.table[i]) ==> g.who != here.who {
        var k: nat :| i + 1 <= k < MAX_CLIENT && Live(s.table[k]) && g == Given(s.owner[k], s.table[k].fd, 0);
        assert Apart(s, i, k);
      }
    }
  }

  /** A message with id 0 goes to every live client, once, and to nobody else. */
  lemma BroadcastToAll(s: State)
    requires Inv(s)
    ensures var out := Deliveries(s.table, s.owner, 0);
            && (forall g :: g in out <==>
                  exists k: nat :: k < MAX_CLIENT && Live(s.table[k]) && g == Given(s.owner[k], s.table[k].fd, 0))
            && (forall a, b :: 0 <= a < b < |out| ==> out[a] != out[b])
  {
    BroadcastAt(s, 0);
  }

  // ----- runs

  predicate OrderlyRun(s: State, es: seq<Event>)
    requires Inv(s)
    decreases |es|
  {
    es == [] || (Orderly(s, es[0]) && (StepKeepsInv(s, es[0]); OrderlyRun(Step(s, es[0]), es[1..])))
  }

  function Run(s: State, es: seq<Event>): (s': State)
    requires Inv(s) && OrderlyRun(s, es)
    ensures Shape(s')
    decreases |es|
  {
    if es == [] then s else (StepKeepsInv(s, es[0]); Run(Step(s, es[0]), es[1..]))
  }

  lemma {:induction false} InvOverRuns(s: State, es: seq<Event>)
    requires Inv(s) && OrderlyRun(s, es)
    ensures Inv(Run(s, es))
    ensures Run(s, es).accepts >= s.accepts
    decreases |es|
  {
    if es != [] {
      StepKeepsInv(s, es[0]);
      InvOverRuns(Step(s, es[0]), es[1..]);
    }
  }

  /** Every run from the start keeps the table in order and sends the modem only tagged ids. */
  lemma FromStart(es: seq<Event>)
    requires OrderlyRun(Initial(), es)
    ensures var s := Run(Initial(), es);
            && (forall i: nat :: i < MAX_CLIENT && Live(s.table[i]) ==> s.table[i].idx == i + 1)
            && (forall k :: 0 <= k < |s.sent| ==> s.sent[k] != 0 && 1 <= s.sent[k] / TID_LIMIT <= MAX_CLIENT)
  {
    InvOverRuns(Initial(), es);
    var s := Run(Initial(), es);
    forall i: nat | i < MAX_CLIENT && Live(s.table[i]) ensures s.table[i].idx == i + 1 {
      assert SlotOk(s, i);
    }
    forall k | 0 <= k < |s.sent| ensures s.sent[k] != 0 && 1 <= s.sent[k] / TID_LIMIT <= MAX_CLIENT {
      assert Tagged(s.sent[k]);
    }
  }

  /** The client on descriptor fd neither hangs up nor sees the proxy restart. */
  predicate Stays(fd: int, es: seq<Event>) { Gone(fd) !in es && Restarted !in es }

  /** Connection `who` holds slot i. */
  predicate Holds(s: State, i: nat, who: nat)
    requires Shape(s) && i < MAX_CLIENT
  {
    Live(s.table[i]) && s.owner[i] == who
  }

  lemma StepHolds(s: State, e: Event, i: nat)
    requires Inv(s) && Orderly(s, e) && i < MAX_CLIENT && Live(s.table[i])
    ensures Stays(s.table[i].fd, [e]) ==> Step(s, e).table[i] == s.table[i] && Step(s, e).owner[i] == s.owner[i]
    ensures !Stays(s.table[i].fd, [e]) ==> !Live(Step(s, e).table[i])
  {
    FindHolder(s, i);
    assert SlotOk(s, i);
  }

  /** A connection that has lost its slot never gets it back. */
  lemma {:induction false} NeverAgain(s: State, es: seq<Event>, i: nat, who: nat)
    requires Inv(s) && OrderlyRun(s, es) && i < MAX_CLIENT && who < s.accepts && !Holds(s, i, who)
    ensures !Holds(Run(s, es), i, who)
    decreases |es|
  {
    if es != [] {
      StepKeepsInv(s, es[0]);
      NeverAgain(Step(s, es[0]), es[1..], i, who);
    }
  }

  /** A connection holds its slot after a run exactly when it stayed throughout. */
  lemma {:induction false} HoldsIffStays(s: State, es: seq<Event>, i: nat)
    requires Inv(s) && OrderlyRun(s, es) && i < MAX_CLIENT && Live(s.table[i])
    ensures Holds(Run(s, es), i, s.owner[i]) <==> Stays(s.table[i].fd, es)
    ensures Stays(s.table[i].fd, es) ==> Run(s, es).table[i] == s.table[i]
    decreases |es|
  {
    if es != [] {
      var s' := Step(s, es[0]);
      StepKeepsInv(s, es[0]);
      StepHolds(s, es[0], i);
      assert SlotOk(s, i);
      assert es == [es[0]] + es[1..];
      if Stays(s.table[i].fd, [es[0]]) {
        HoldsIffStays(s', es[1..], i);
      } else {
        NeverAgain(s', es[1..], i, s.owner[i]);
      }
    }
  }

  /** The round trip: the request of the client in slot i goes to the modem under a non-zero id, and the
      answer to that id, however much later, reaches that very connection, alone and with the low 24 bits
      of its own id, exactly when the connection stayed. Its id comes back whole only below 2^24. */
  lemma AnswerReachesAsker(s: State, i: nat, x: nat, es: seq<Event>)
    requires Inv(s) && i < MAX_CLIENT && Live(s.table[i]) && x < WORD
    requires Inv(Step(s, Asked(s.table[i].fd, x))) && OrderlyRun(Step(s, Asked(s.table[i].fd, x)), es)
    ensures var fd := s.table[i].fd;
            var asked := Step(s, Asked(fd, x));
            var later := Run(asked, es);
            && asked.sent == s.sent + [Rewrite(x, i + 1)]
            && Rewrite(x, i + 1) != 0
            && (Stays(fd, es) ==>
                  Step(later, Answered(Rewrite(x, i + 1))).given == later.given + [Given(s.owner[i], fd, x % TID_LIMIT)])
            && ((exists g :: g in Deliveries(later.table, later.owner, Rewrite(x, i + 1)) && g.who == s.owner[i])
                <==> Stays(fd, es))
            && (x % TID_LIMIT == x <==> x < TID_LIMIT)
  {
    var fd := s.table[i].fd;
    var asked := Step(s, Asked(fd, x));
    FindHolder(s, i);
    assert SlotOk(s, i);
    RewriteTags(x, i);
    HoldsIffStays(asked, es, i);
    var later := Run(asked, es);
    InvOverRuns(asked, es);
    AnswerGoesToSlot(later, i, x);
    var out := Deliveries(later.table, later.owner, Rewrite(x, i + 1));
    if Stays(fd, es) {
      assert out[0].who == s.owner[i];
    }
  }

  /** A client that hung up leaves its slot to the next one, which gets the late answer: a concrete run. */
  lemma LateAnswerMisdelivered()
    ensures var es := [Accepted(5), Asked(5, 7), Gone(5), Accepted(6)];
            && OrderlyRun(Initial(), es)
            && Run(Initial(), es).sent == [Rewrite(7, 1)]
            && Deliveries(Run(Initial(), es).table, Run(Initial(), es).owner, Rewrite(7, 1)) == [Given(1, 6, 7)]
  {
    var s0 := Initial();
    var s1 := Step(s0, Accepted(5));
    assert First(s0.table, Free(), 0) == 0;
    StepKeepsInv(s0, Accepted(5));
    var s2 := Step(s1, Asked(5, 7));
    assert First(s1.table, HeldBy(5), 0) == 0;
    StepKeepsInv(s1, Asked(5, 7));
    var s3 := Step(s2, Gone(5));
    assert First(s2.table, HeldBy(5), 0) == 0;
    StepKeepsInv(s2, Gone(5));
    var s4 := Step(s3, Accepted(6));
    assert First(s3.table, Free(), 0) == 0;
    StepKeepsInv(s3, Accepted(6));
    var es := [Accepted(5), Asked(5, 7), Gone(5), Accepted(6)];
    assert es[1..] == [Asked(5, 7), Gone(5), Accepted(6)];
    assert es[1..][1..] == [Gone(5), Accepted(6)];
    assert es[1..][1..][1..] == [Accepted(6)];
    assert es[1..][1..][1..][1..] == [];
    assert OrderlyRun(s4, []);
    assert OrderlyRun(s3, [Accepted(6)]) && Run(s3, [Accepted(6)]) == s4;
    assert OrderlyRun(s2, es[1..][1..]) && Run(s2, es[1..][1..]) == s4;
    assert OrderlyRun(s1, es[1..]) && Run(s1, es[1..]) == s4;
    AnswerGoesToSlot(s4, 0, 7);
  }
}
