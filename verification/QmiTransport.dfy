/** The one-slot request/response rendezvous of QMIThread.c as a step system. A step is what one thread
    does between taking and giving up s_commandmutex; any interleaving of steps is a run. */
module QmiTransport {
  import opened Options

  const TYPE_CTL: nat := 0x00
  const TYPE_WDS: nat := 0x01
  const TYPE_NAS: nat := 0x03
  const TYPE_WDS_IPV6: nat := 0x11
  const TYPE_WDS_ADMIN: nat := 0x1A

  const REVOKE_CLIENT_ID_IND: nat := 0x0024
  const SERVING_SYSTEM_IND: nat := 0x0024
  const GET_PKT_SRVC_STATUS_IND: nat := 0x0022
  const SYS_INFO_IND: nat := 0x004D
  const SET_LOOPBACK_CONFIG_IND: nat := 0x002F

  /** A request object: `id` tells objects apart, `num` counts the QMUX requests composed (0 for a control
      request, whose id comes from elsewhere), the other fields are what is_response compares. */
  datatype Req = Req(id: nat, qmiType: nat, clientId: nat, tid: nat, num: nat)

  /** A message from the device; `num` is the number of the request it replies to, 0 for any other. */
  datatype Msg = Msg(qmiType: nat, clientId: nat, tid: nat, msgType: nat, num: nat, body: seq<int>)

  /** What the device thread tells the main loop. */
  datatype MainEvent = ModemReset | NetworkStateChanged | DataCallListChanged | LoopbackConfig

  /** A malloc'ed copy of a message. */
  datatype Copy = Copy(id: nat, msg: Msg)

  /** The slots, the request the sending thread waits for, logs of what happened to each object, the id
      counter with the ids it has given out, and what was told to the main loop. */
  datatype State = State(
    slot: Option<Req>, response: Option<Copy>, waiting: Option<Req>,
    sent: seq<nat>, freed: seq<nat>, overwritten: seq<nat>,
    copies: nat, consumed: seq<nat>, returned: seq<(Req, Msg)>,
    counter: nat, issued: seq<nat>, told: seq<MainEvent>)

  const IDLE: State := State(None, None, None, [], [], [], 0, [], [], 0, [], [])

  /** is_response. */
  predicate Matches(r: Req, m: Msg) { r.qmiType == m.qmiType && r.clientId == m.clientId && r.tid == m.tid }

  /** The device layer may rename the IPv6 data service in the request it is given. */
  function Wire(r: Req, rename: bool): Req {
    if rename && r.qmiType == TYPE_WDS_IPV6 then r.(qmiType := TYPE_WDS) else r
  }

  function SlotIds(slot: Option<Req>): seq<nat> { if slot.Some? then [slot.value.id] else [] }

  /** QmiThreadSendQMITimeout up to the wait; `ok` says whether the device took the request. */
  function Send(s: State, r: Req, rename: bool, ok: bool): State {
    var w := Wire(r, rename);
    s.(slot := Some(w), response := None, waiting := if ok then Some(w) else None,
       sent := s.sent + [r.id], overwritten := s.overwritten + SlotIds(s.slot))
  }

  /** What a message that is no response to the slot means to the main loop. */
  function Indication(m: Msg): seq<MainEvent> {
    if m.qmiType == TYPE_CTL && m.msgType == REVOKE_CLIENT_ID_IND then [ModemReset]
    else if m.qmiType == TYPE_NAS && m.msgType == SERVING_SYSTEM_IND then [NetworkStateChanged]
    else if m.qmiType == TYPE_WDS && m.msgType == GET_PKT_SRVC_STATUS_IND then [DataCallListChanged]
    else if m.qmiType == TYPE_NAS && m.msgType == SYS_INFO_IND then [NetworkStateChanged]
    else if m.qmiType == TYPE_WDS_ADMIN && m.msgType == SET_LOOPBACK_CONFIG_IND then [LoopbackConfig]
    else []
  }

  /** QmiThreadRecvQMI with a message. */
  function Arrive(s: State, m: Msg): State {
    if s.slot.Some? && Matches(s.slot.value, m) then
      s.(slot := None, freed := s.freed + [s.slot.value.id],
         response := Some(Copy(s.copies, m)), copies := s.copies + 1)
    else s.(told := s.told + Indication(m))
  }

  /** QmiThreadRecvQMI(NULL). */
  function Abort(s: State): State {
    if s.slot.Some? then s.(slot := None, freed := s.freed + [s.slot.value.id], response := None) else s
  }

  /** The wait ends without a timeout, signalled or not; `want` says whether the caller asked for the
      response. */
  function Wake(s: State, want: bool): State
    requires s.waiting.Some?
  {
    if s.response.None? then s.(waiting := None)
    else if want then
      s.(waiting := None, consumed := s.consumed + [s.response.value.id],
         returned := s.returned + [(s.waiting.value, s.response.value.msg)])
    else
      s.(waiting := None, consumed := s.consumed + [s.response.value.id], response := None)
  }

  /** GetQMUXTransactionId. */
  function NextTid(c: nat): nat { if c + 1 > 0xFFFF then 1 else c + 1 }

  /** ComposeQMUXMsg takes the next id. */
  function Compose(s: State): State {
    s.(counter := NextTid(s.counter), issued := s.issued + [NextTid(s.counter)])
  }

  datatype Event =
    | Composing
    | Sending(r: Req, rename: bool, ok: bool)
    | Arriving(m: Msg)
    | Aborting
    | Waking(want: bool)
    | TimingOut

  /** The num-th request composed carries this id. */
  predicate Numbered(issued: seq<nat>, num: nat, tid: nat) { num > 0 ==> num <= |issued| && tid == issued[num - 1] }

  /** One thread sends at a time, and only a waiting thread wakes or times out. A request is sent with the
      id it was composed with, and a reply carries the id of the request it replies to. */
  predicate Enabled(s: State, e: Event) {
    match e
    case Sending(r, _, _) => s.waiting.None? && (r.qmiType != TYPE_CTL ==> r.num > 0) && Numbered(s.issued, r.num, r.tid)
    case Arriving(m) => Numbered(s.issued, m.num, m.tid)
    case Waking(_) => s.waiting.Some?
    case TimingOut => s.waiting.Some?
    case _ => true
  }

  function Step(s: State, e: Event): State
    requires Enabled(s, e)
  {
    match e
    case Composing => Compose(s)
    case Sending(r, rename, ok) => Send(s, r, rename, ok)
    case Arriving(m) => Arrive(s, m)
    case Aborting => Abort(s)
    case Waking(want) => Wake(s, want)
    case TimingOut => s.(waiting := None)
  }

  predicate Possible(s: State, events: seq<Event>)
    decreases |events|
  {
    events == [] || (Enabled(s, events[0]) && Possible(Step(s, events[0]), events[1..]))
  }

  function Run(s: State, events: seq<Event>): State
    requires Possible(s, events)
    decreases |events|
  {
    if events == [] then s else Run(Step(s, events[0]), events[1..])
  }

  // ----- what every run keeps

  predicate Distinct(ids: seq<nat>) { forall i, j :: 0 <= i < j < |ids| ==> ids[i] != ids[j] }

  /** The ids given out are those of the cycle, and every request and reply on record carries its own. */
  ghost predicate IdsInv(s: State) {
    && s.counter == Tid(|s.issued|)
    && (forall i :: 0 <= i < |s.issued| ==> s.issued[i] == Tid(i + 1))
    && (s.slot.Some? ==> Numbered(s.issued, s.slot.value.num, s.slot.value.tid))
    && (s.waiting.Some? ==> Numbered(s.issued, s.waiting.value.num, s.waiting.value.tid))
    && (s.response.Some? ==> Numbered(s.issued, s.response.value.msg.num, s.response.value.msg.tid))
    && (forall k :: 0 <= k < |s.returned| ==>
          && Numbered(s.issued, s.returned[k].0.num, s.returned[k].0.tid)
          && Numbered(s.issued, s.returned[k].1.num, s.returned[k].1.tid))
  }

  lemma StepKeepsIds(s: State, e: Event)
    requires IdsInv(s) && Enabled(s, e)
    ensures IdsInv(Step(s, e))
  {
    hide NextTid, Tid, Matches, Indication;
    if e.Composing? {
      TidNext(|s.issued|);
    }
  }

  lemma TidNext(k: nat)
    ensures Tid(k + 1) == NextTid(Tid(k))
  {
  }

  lemma {:induction false} IdsOverRuns(s: State, events: seq<Event>)
    requires IdsInv(s) && Possible(s, events)
    ensures IdsInv(Run(s, events))
    decreases |events|
  {
    hide IdsInv, Step, Enabled;
    if events != [] {
      StepKeepsIds(s, events[0]);
      IdsOverRuns(Step(s, events[0]), events[1..]);
    }
  }

  /** While a thread waits, the slot is its own request or a matching response has come; every response
      handed back matches its request; every request sent is freed, overwritten or still in the slot;
      no copy is handed back or freed twice. */
  ghost predicate Inv(s: State) {
    && (s.slot.Some? ==> s.response.None?)
    && (s.waiting.Some? ==>
          || s.slot == s.waiting
          || (s.slot.None? && (s.response.Some? ==> Matches(s.waiting.value, s.response.value.msg))))
    && (forall k :: 0 <= k < |s.returned| ==> Matches(s.returned[k].0, s.returned[k].1))
    && multiset(s.sent) == multiset(s.freed) + multiset(s.overwritten) + multiset(SlotIds(s.slot))
    && Distinct(s.consumed)
    && (forall c :: c in s.consumed ==> c < s.copies)
    && (s.response.Some? ==> s.response.value.id < s.copies)
    && (s.waiting.Some? && s.response.Some? ==> s.response.value.id !in s.consumed)
  }

  lemma StepKeepsInv(s: State, e: Event)
    requires Inv(s) && Enabled(s, e)
    ensures Inv(Step(s, e))
  {
    match e
    case Composing =>
    case Sending(r, rename, ok) => SendKeepsInv(s, r, rename, ok);
    case Arriving(m) => ArriveKeepsInv(s, m);
    case Aborting => AbortKeepsInv(s);
    case Waking(want) =>
    case TimingOut =>
  }

  lemma SendKeepsInv(s: State, r: Req, rename: bool, ok: bool)
    requires Inv(s) && s.waiting.None?
    ensures Inv(Send(s, r, rename, ok))
  {
  }

  lemma ArriveKeepsInv(s: State, m: Msg)
    requires Inv(s)
    ensures Inv(Arrive(s, m))
  {
  }

  lemma AbortKeepsInv(s: State)
    requires Inv(s)
    ensures Inv(Abort(s))
  {
  }

  lemma {:induction false} InvOverRuns(s: State, events: seq<Event>)
    requires Inv(s) && Possible(s, events)
    ensures Inv(Run(s, events))
    decreases |events|
  {
    hide Inv, Step;
    if events != [] {
      StepKeepsInv(s, events[0]);
      InvOverRuns(Step(s, events[0]), events[1..]);
    }
  }

  /** Over every interleaving: a response handed back has the service type, client id and transaction id
      of that very request, and request objects sent once are freed at most once. */
  lemma RendezvousOverRuns(events: seq<Event>)
    requires Possible(IDLE, events)
    ensures var s := Run(IDLE, events);
            && (forall k :: 0 <= k < |s.returned| ==>
                  var (r, m) := s.returned[k]; m.qmiType == r.qmiType && m.clientId == r.clientId && m.tid == r.tid)
            && (Distinct(s.sent) ==> Distinct(s.freed))
            && (forall id :: id in s.freed ==> id in s.sent)
            && Distinct(s.consumed)
  {
    hide Run;
    InvOverRuns(IDLE, events);
    var s := Run(IDLE, events);
    assert forall k :: 0 <= k < |s.returned| ==> Matches(s.returned[k].0, s.returned[k].1);
    forall id | id in s.freed ensures id in s.sent {
      assert id in multiset(s.freed);
      assert id in multiset(s.sent);
    }
    if Distinct(s.sent) {
      forall i, j | 0 <= i < j < |s.freed| ensures s.freed[i] != s.freed[j] {
        if s.freed[i] == s.freed[j] {
          Twice(s.freed, i, j);
          assert multiset(s.sent)[s.freed[i]] >= 2;
          OnlyOnce(s.sent, s.freed[i]);
        }
      }
    }
  }

  lemma Twice(ids: seq<nat>, i: nat, j: nat)
    requires i < j < |ids| && ids[i] == ids[j]
    ensures multiset(ids)[ids[i]] >= 2
  {
    assert ids == ids[..i] + [ids[i]] + ids[i + 1..j] + [ids[j]] + ids[j + 1..];
  }

  lemma {:induction false} OnlyOnce(ids: seq<nat>, x: nat)
    requires Distinct(ids)
    ensures multiset(ids)[x] <= 1
  {
    if ids != [] {
      var rest := ids[1..];
      assert ids == [ids[0]] + rest;
      assert forall i :: 0 <= i < |rest| ==> rest[i] == ids[i + 1];
      OnlyOnce(rest, x);
      if ids[0] == x {
        assert x !in rest;
      }
    }
  }

  // ----- a response is handed back

  /** The type on the wire: the IPv6 data service goes out as the data service when the device layer renames. */
  function WireType(r: Req, rename: bool): nat { if rename && r.qmiType == 0x11 then 0x01 else r.qmiType }

  /** The message answers the request: same service type, client id and transaction id. */
  predicate Answers(r: Req, rename: bool, m: Msg) {
    m.qmiType == WireType(r, rename) && m.clientId == r.clientId && m.tid == r.tid
  }

  /** Nothing happens but composing requests and messages that do not answer r. */
  predicate Unrelated(r: Req, rename: bool, events: seq<Event>) {
    forall i :: 0 <= i < |events| ==> events[i].Composing? || (events[i].Arriving? && !Answers(r, rename, events[i].m))
  }

  /** Nothing happens but composing requests and messages of any kind. */
  predicate NoWake(events: seq<Event>) { forall i :: 0 <= i < |events| ==> events[i].Composing? || events[i].Arriving? }

  /** The thread waits for r, which nobody has answered yet. */
  predicate Waits(s: State, w: Req, returned: seq<(Req, Msg)>) {
    s.slot == Some(w) && s.waiting == Some(w) && s.response == None && s.returned == returned
  }

  /** The thread is about to be handed m. */
  predicate Answered(s: State, w: Req, m: Msg, returned: seq<(Req, Msg)>) {
    s.slot == None && s.waiting == Some(w) && s.response.Some? && s.response.value.msg == m && s.returned == returned
  }

  lemma {:induction false} UnrelatedKeepsWaiting(s: State, r: Req, rename: bool, events: seq<Event>,
                                                 returned: seq<(Req, Msg)>)
    requires Possible(s, events) && Unrelated(r, rename, events)
    requires Waits(s, r.(qmiType := WireType(r, rename)), returned)
    ensures Waits(Run(s, events), r.(qmiType := WireType(r, rename)), returned)
    decreases |events|
  {
    if events != [] {
      assert events[0].Composing? || (events[0].Arriving? && !Answers(r, rename, events[0].m));
      UnrelatedKeepsWaiting(Step(s, events[0]), r, rename, events[1..], returned);
    }
  }

  lemma {:induction false} NoWakeKeepsAnswer(s: State, w: Req, m: Msg, events: seq<Event>, returned: seq<(Req, Msg)>)
    requires Possible(s, events) && NoWake(events) && Answered(s, w, m, returned)
    ensures Answered(Run(s, events), w, m, returned)
    decreases |events|
  {
    if events != [] {
      assert events[0].Composing? || events[0].Arriving?;
      NoWakeKeepsAnswer(Step(s, events[0]), w, m, events[1..], returned);
    }
  }

  /** Every answered request gets its answer: a request is sent, messages that do not answer it come, one that
      does comes, any messages come, and the thread wakes wanting the response. Then exactly that answer is
      handed back for that request, and if the response is not wanted it is freed and nothing is handed back. */
  lemma ResponseHandedBack(s: State, r: Req, rename: bool, before: seq<Event>, m: Msg, after: seq<Event>, want: bool)
    requires Enabled(s, Sending(r, rename, true))
    requires var s1 := Step(s, Sending(r, rename, true));
             Possible(s1, before) && Unrelated(r, rename, before) && Answers(r, rename, m)
             && Enabled(Run(s1, before), Arriving(m))
             && Possible(Step(Run(s1, before), Arriving(m)), after) && NoWake(after)
    ensures var s1 := Step(s, Sending(r, rename, true));
            var s2 := Run(Step(Run(s1, before), Arriving(m)), after);
            && Enabled(s2, Waking(want))
            && var end := Step(s2, Waking(want));
               && end.returned == s.returned + (if want then [(r.(qmiType := WireType(r, rename)), m)] else [])
               && |end.consumed| == |s2.consumed| + 1 && end.waiting == None
  {
    hide Run;
    var w := r.(qmiType := WireType(r, rename));
    var s1 := Step(s, Sending(r, rename, true));
    UnrelatedKeepsWaiting(s1, r, rename, before, s.returned);
    var s2 := Step(Run(s1, before), Arriving(m));
    NoWakeKeepsAnswer(s2, w, m, after, s.returned);
  }

  /** A request the device did not take, or one that the NULL of a shutdown ends, is handed nothing. */
  lemma NothingHandedBack(s: State, r: Req, rename: bool)
    requires Enabled(s, Sending(r, rename, true))
    ensures Step(s, Sending(r, rename, false)).waiting == None
    ensures var s2 := Step(Step(s, Sending(r, rename, true)), Aborting);
            && Enabled(s2, Waking(true)) && Step(s2, Waking(true)).returned == s.returned
            && s2.slot == None && r.id in s2.freed
  {
    var s2 := Step(Step(s, Sending(r, rename, true)), Aborting);
    assert s2.freed[|s2.freed| - 1] == r.id;
  }

  /** The request just composed can be sent with its id, and so can a control request with any id. */
  lemma ComposedCanBeSent(s: State, r: Req, rename: bool, ok: bool)
    requires s.waiting == None && s.counter < 0x10000
    requires if r.qmiType == 0 then r.num == 0
             else r.num == |s.issued| + 1 && r.tid == if s.counter == 0xFFFF then 1 else s.counter + 1
    ensures Enabled(Step(s, Composing), Sending(r, rename, ok))
  {
  }

  /** What each kind of indication is to the main loop, by its service type and message type. */
  lemma IndicationsByNumber(m: Msg)
    ensures Indication(m) ==
            if m.qmiType == 0 && m.msgType == 0x24 then [ModemReset]
            else if m.qmiType == 3 && (m.msgType == 0x24 || m.msgType == 0x4D) then [NetworkStateChanged]
            else if m.qmiType == 1 && m.msgType == 0x22 then [DataCallListChanged]
            else if m.qmiType == 0x1A && m.msgType == 0x2F then [LoopbackConfig]
            else []
  {
  }

  // ----- transaction ids

  /** The id of the k-th request composed, counting from 1. */
  function Tid(k: nat): nat { if k == 0 then 0 else NextTid(Tid(k - 1)) }

  /** The ids run through 1..65535 over and over and never take the value 0. */
  lemma {:induction false} TidCycle(k: nat)
    requires k > 0
    ensures Tid(k) == (k - 1) % 0xFFFF + 1
  {
    if k > 1 {
      TidCycle(k - 1);
    }
  }

  /** Two requests share an id exactly when a multiple of 65535 requests lies between them. */
  lemma SameTid(i: nat, j: nat)
    requires 0 < i <= j
    ensures Tid(i) == Tid(j) <==> (j - i) % 0xFFFF == 0
  {
    TidCycle(i);
    TidCycle(j);
    var q, a := (i - 1) / 0xFFFF, (i - 1) % 0xFFFF;
    var r, b := (j - 1) / 0xFFFF, (j - 1) % 0xFFFF;
    Remainder(r - q, b - a, j - i);
  }

  lemma Remainder(q: int, d: int, n: nat)
    requires n == 0xFFFF * q + d && -0xFFFF < d < 0xFFFF
    ensures n % 0xFFFF == 0 <==> d == 0
  {
    if d >= 0 {
      assert n % 0xFFFF == d;
    } else {
      assert n == 0xFFFF * (q - 1) + (0xFFFF + d);
      assert n % 0xFFFF == 0xFFFF + d;
    }
  }

  /** Over every interleaving: a reply handed back for a request replies to that very request, or to one a
      multiple of 65535 requests away; so it is never a late reply to one of the 65534 requests before. */
  lemma NoStaleReply(events: seq<Event>, k: nat)
    requires Possible(IDLE, events) && k < |Run(IDLE, events).returned|
    ensures var (r, m) := Run(IDLE, events).returned[k];
            r.num > 0 && 0 < m.num <= r.num ==>
              && (r.num - m.num) % 0xFFFF == 0
              && (r.num - m.num <= 65534 ==> r.num == m.num)
  {
    hide Run, Tid;
    RendezvousOverRuns(events);
    IdleIds();
    IdsOverRuns(IDLE, events);
    var s := Run(IDLE, events);
    var (r, m) := s.returned[k];
    assert Matches(s.returned[k].0, s.returned[k].1);
    if r.num > 0 && 0 < m.num <= r.num {
      assert Numbered(s.issued, r.num, r.tid) && Numbered(s.issued, m.num, m.tid);
      SameTid(m.num, r.num);
    }
  }

  lemma IdleIds()
    ensures IdsInv(IDLE)
  {
  }

  /** A message is taken for the response to the request in the slot or told to the main loop, never both. */
  lemma ResponseOrIndication(s: State, m: Msg)
    ensures var s' := Arrive(s, m);
            && (s'.told != s.told ==> s'.slot == s.slot && s'.response == s.response)
            && (s'.slot != s.slot <==> s.slot.Some? && Matches(s.slot.value, m))
            && (s'.slot == s.slot ==> s'.told == s.told + Indication(m))
  {
  }

  // ----- the code

  /** QCQMIMSG as the sender holds it; the device layer writes to it. */
  class Request {
    const id: nat
    var qmiType: nat
    const clientId: nat
    const tid: nat
    ghost const num: nat

    constructor (id: nat, qmiType: nat, clientId: nat, tid: nat, ghost num: nat)
      ensures Value() == Req(id, qmiType, clientId, tid, num)
    {
      this.id, this.qmiType, this.clientId, this.tid, this.num := id, qmiType, clientId, tid, num;
    }

    ghost function Value(): Req
      reads this
    {
      Req(id, qmiType, clientId, tid, num)
    }
  }

  class Transport {
    var transactionId: nat
    var sPRequest: Request?
    var sPResponse: Option<Copy>
    ghost var waiting: Option<Req>
    ghost var sent: seq<nat>
    ghost var freed: seq<nat>
    ghost var overwritten: seq<nat>
    var copies: nat
    ghost var consumed: seq<nat>
    ghost var returned: seq<(Req, Msg)>
    ghost var issued: seq<nat>
    /** What qmidevice_send_event_to_main was called with. */
    var told: seq<MainEvent>

    ghost function Model(): State
      reads this, sPRequest
    {
      State(if sPRequest == null then None else Some(sPRequest.Value()), sPResponse, waiting,
            sent, freed, overwritten, copies, consumed, returned, transactionId, issued, told)
    }

    constructor ()
      ensures Model() == IDLE
    {
      transactionId, sPRequest, sPResponse, copies := 0, null, None, 0;
      waiting, sent, freed, overwritten, consumed, returned := None, [], [], [], [], [];
      issued, told := [], [];
    }

    method GetQMUXTransactionId() returns (tid: nat)
      modifies this`transactionId, this`issued
      ensures Model() == Step(old(Model()), Composing)
      ensures tid == transactionId
      ensures IdsInv(old(Model())) ==> tid == Tid(|issued|) && 1 <= tid <= 0xFFFF
    {
      if IdsInv(Model()) {
        TidNext(|issued|);
        TidCycle(|issued| + 1);
      }
      transactionId := transactionId + 1;
      if transactionId > 0xFFFF {
        transactionId := 1;
      }
      tid := transactionId;
      issued := issued + [tid];
    }

    /** QmiThreadSendQMITimeout until it waits. `sendRet` is what qmidev_send returns; the wdm device
        layer renames WDS_IPV6 in the very object the slot points at, unless it fails first. */
    method SendBegin(pRequest: Request?, rename: bool, sendRet: int) returns (ret: int, waits: bool)
      requires waiting.None?
      requires pRequest != null ==> Enabled(Model(), Sending(pRequest.Value(), rename, sendRet == 0))
      modifies this`sPRequest, this`sPResponse, this`waiting, this`sent, this`overwritten
      modifies if pRequest == null then {} else {pRequest}
      ensures pRequest == null ==> ret == -22 && !waits && Model() == old(Model())
      ensures pRequest != null ==>
                && ret == sendRet && waits == (sendRet == 0)
                && Model() == Step(old(Model()), Sending(old(pRequest.Value()), rename, sendRet == 0))
    {
      if pRequest == null {
        return -22, false;
      }
      overwritten := overwritten + if sPRequest == null then [] else [sPRequest.id];
      sent := sent + [pRequest.id];
      sPRequest := pRequest;
      sPResponse := None;
      if rename && pRequest.qmiType == TYPE_WDS_IPV6 {
        pRequest.qmiType := TYPE_WDS;
      }
      ret := sendRet;
      waits := ret == 0;
      waiting := if waits then Some(pRequest.Value()) else None;
    }

    /** The rest of QmiThreadSendQMITimeout: `condRet` is what the wait returned. */
    method SendEnd(condRet: int, want: bool) returns (ret: int, response: Option<Copy>)
      requires waiting.Some?
      modifies this`sPResponse, this`waiting, this`consumed, this`returned
      ensures ret == condRet
      ensures Model() == Step(old(Model()), if condRet == 0 then Waking(want) else TimingOut)
      ensures response == if condRet == 0 && want then old(sPResponse) else None
    {
      response := None;
      ret := condRet;
      if ret == 0 {
        if sPResponse.Some? && want {
          response := sPResponse;
          consumed := consumed + [sPResponse.value.id];
          returned := returned + [(waiting.value, sPResponse.value.msg)];
        } else if sPResponse.Some? {
          consumed := consumed + [sPResponse.value.id];
          sPResponse := None;
        }
      }
      waiting := None;
    }

    /** QmiThreadRecvQMI; None is the NULL the device thread sends on shutdown. */
    method Recv(m: Option<Msg>)
      requires m.Some? ==> Enabled(Model(), Arriving(m.value))
      modifies this`sPRequest, this`sPResponse, this`freed, this`copies, this`told
      ensures Model() == Step(old(Model()), if m.None? then Aborting else Arriving(m.value))
    {
      if m.None? {
        if sPRequest != null {
          freed := freed + [sPRequest.id];
          sPRequest := null;
          sPResponse := None;
        }
        return;
      }
      if sPRequest != null && IsResponse(sPRequest, m.value) {
        freed := freed + [sPRequest.id];
        sPRequest := null;
        sPResponse := Some(Copy(copies, m.value));
        copies := copies + 1;
      } else if m.value.qmiType == TYPE_CTL && m.value.msgType == REVOKE_CLIENT_ID_IND {
        told := told + [ModemReset];
      } else if m.value.qmiType == TYPE_NAS && m.value.msgType == SERVING_SYSTEM_IND {
        told := told + [NetworkStateChanged];
      } else if m.value.qmiType == TYPE_WDS && m.value.msgType == GET_PKT_SRVC_STATUS_IND {
        told := told + [DataCallListChanged];
      } else if m.value.qmiType == TYPE_NAS && m.value.msgType == SYS_INFO_IND {
        told := told + [NetworkStateChanged];
      } else if m.value.qmiType == TYPE_WDS_ADMIN && m.value.msgType == SET_LOOPBACK_CONFIG_IND {
        told := told + [LoopbackConfig];
      }
    }
  }

  /** is_response on the live request object. */
  predicate IsResponse(r: Request, m: Msg)
    reads r
  {
    if r.qmiType == m.qmiType && r.clientId == m.clientId then r.tid == m.tid else false
  }
}
