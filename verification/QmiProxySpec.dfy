/** The QMI proxy of mobile/quectel-CM/src/quectel-qmi-proxy.c as a step system over values: which
    connections exist, which client ids each owns, and the queue of CTL requests awaiting the modem. */
module QmiProxySpec {
  const CTL: nat := 0x00
  const FLAG_RSP: nat := 0x01
  const GET_CLIENT_ID: nat := 0x0022
  const RELEASE_CLIENT_ID: nat := 0x0023
  const REVOKE_CLIENT_ID: nat := 0x0024

  /** The fields of a QMI message that the proxy reads; `body` stands for all the others. */
  datatype Message = Message(qmiType: nat, clientId: nat, ctlFlags: nat, ctlType: nat,
                             result: nat, error: nat, grantType: nat, grantId: nat, body: seq<int>)

  /** A (service, client id) pair that a connection owns. */
  datatype Client = Client(qmiType: nat, clientId: nat)

  datatype Conn = Conn(fd: nat, clients: seq<Client>)

  /** A queued CTL request and the connection it came from. */
  datatype CtlMsg = CtlMsg(fd: nat, qmi: Message)

  datatype Delivery = Delivery(fd: nat, qmi: Message)

  datatype State = State(conns: seq<Conn>, ctl: seq<CtlMsg>, reset: bool)

  /** What one step writes to the modem and to the clients. */
  datatype Output = Output(toModem: seq<Message>, toClients: seq<Delivery>)

  // ----- the steps

  /** ClientFd is a uint8_t. */
  function Low(fd: int): nat { fd % 256 }

  function Accept(s: State, fd: int): State { s.(conns := s.conns + [Conn(Low(fd), [])]) }

  /** The list without its first connection on `fd`. */
  function DropConn(conns: seq<Conn>, fd: int): seq<Conn> {
    if conns == [] then []
    else if conns[0].fd == fd then conns[1..]
    else [conns[0]] + DropConn(conns[1..], fd)
  }

  /** The queue without its first message from `fd`. */
  function DropMsg(ctl: seq<CtlMsg>, fd: int): seq<CtlMsg> {
    if ctl == [] then []
    else if ctl[0].fd == fd then ctl[1..]
    else [ctl[0]] + DropMsg(ctl[1..], fd)
  }

  predicate Connected(conns: seq<Conn>, fd: int) { exists i :: 0 <= i < |conns| && conns[i].fd == fd }

  /** cleanup_qmi_connection. */
  function Close(s: State, fd: int): State {
    if Connected(s.conns, fd) then s.(conns := DropConn(s.conns, fd), ctl := DropMsg(s.ctl, fd)) else s
  }

  /** The loop at qmi_proxy_loop_exit: connections are closed from the front until none is left. */
  function Shutdown(s: State): State
    decreases |s.conns|
  {
    if s.conns == [] then s
    else
      assert Connected(s.conns, s.conns[0].fd);
      Shutdown(Close(s, s.conns[0].fd))
  }

  /** send_qmi: a CTL request goes out at once only when none is queued. */
  function Send(s: State, qmi: Message, fd: int): (State, Output) {
    if qmi.qmiType == CTL then
      (s.(ctl := s.ctl + [CtlMsg(Low(fd), qmi)]), Output(if s.ctl == [] then [qmi] else [], []))
    else
      (s, Output([qmi], []))
  }

  function Grant(table: seq<Client>, qmi: Message): seq<Client> {
    if qmi.result == 0 && qmi.error == 0 then table + [Client(qmi.grantType, qmi.grantId)] else table
  }

  /** The table without its first entry equal to `c`. */
  function Without(table: seq<Client>, c: Client): seq<Client> {
    if table == [] then []
    else if table[0] == c then table[1..]
    else [table[0]] + Without(table[1..], c)
  }

  function Release(table: seq<Client>, qmi: Message): seq<Client> {
    if qmi.result == 0 && qmi.error == 0 then Without(table, Client(qmi.grantType, qmi.grantId)) else table
  }

  /** What a CTL response does to the table of the connection it is delivered to. */
  function Learn(table: seq<Client>, qmi: Message): seq<Client> {
    if qmi.ctlType == GET_CLIENT_ID then Grant(table, qmi)
    else if qmi.ctlType == RELEASE_CLIENT_ID || qmi.ctlType == REVOKE_CLIENT_ID then Release(table, qmi)
    else table
  }

  function LearnAll(conns: seq<Conn>, fd: nat, qmi: Message): seq<Conn> {
    if conns == [] then []
    else
      [if conns[0].fd == fd then conns[0].(clients := Learn(conns[0].clients, qmi)) else conns[0]]
      + LearnAll(conns[1..], fd, qmi)
  }

  /** One copy for every connection on `fd`. */
  function Answer(conns: seq<Conn>, fd: nat, qmi: Message): seq<Delivery> {
    if conns == [] then []
    else (if conns[0].fd == fd then [Delivery(fd, qmi)] else []) + Answer(conns[1..], fd, qmi)
  }

  /** The queue head is written once for every connection on its descriptor. */
  function Kick(conns: seq<Conn>, head: CtlMsg): seq<Message> {
    if conns == [] then []
    else (if conns[0].fd == head.fd then [head.qmi] else []) + Kick(conns[1..], head)
  }

  function RouteClients(fd: nat, table: seq<Client>, qmi: Message): seq<Delivery> {
    if table == [] then []
    else
      (if qmi.qmiType == table[0].qmiType && (qmi.clientId == 0 || qmi.clientId == table[0].clientId)
       then [Delivery(fd, qmi)] else [])
      + RouteClients(fd, table[1..], qmi)
  }

  /** A service message goes to every registered client it addresses. */
  function Route(conns: seq<Conn>, qmi: Message): seq<Delivery> {
    if conns == [] then [] else RouteClients(conns[0].fd, conns[0].clients, qmi) + Route(conns[1..], qmi)
  }

  /** The CTL half of recv_qmi before the next request is sent. */
  function Respond(s: State, qmi: Message): (State, seq<Delivery>) {
    if qmi.ctlFlags == FLAG_RSP && s.ctl != [] then
      var fd := s.ctl[0].fd;
      (State(LearnAll(s.conns, fd, qmi), s.ctl[1..],
             s.reset || (qmi.ctlType == REVOKE_CLIENT_ID && Connected(s.conns, fd))),
       Answer(s.conns, fd, qmi))
    else (s, [])
  }

  /** recv_qmi. */
  function Recv(s: State, qmi: Message): (State, Output) {
    if qmi.qmiType == CTL then
      var (s', answers) := Respond(s, qmi);
      (s', Output(if s'.ctl == [] then [] else Kick(s'.conns, s'.ctl[0]), answers))
    else
      (s, Output([], Route(s.conns, qmi)))
  }

  datatype Event = Accepted(fd: int) | Closed(fd: int) | FromClient(fd: int, qmi: Message) | FromModem(qmi: Message)

  function Step(s: State, e: Event): (State, Output) {
    match e
    case Accepted(fd) => (Accept(s, fd), Output([], []))
    case Closed(fd) => (Close(s, fd), Output([], []))
    case FromClient(fd, qmi) => Send(s, qmi, fd)
    case FromModem(qmi) => Recv(s, qmi)
  }
}
