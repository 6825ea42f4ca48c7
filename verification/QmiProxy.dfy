/** The QMI proxy on its linked lists, each operation refined to the step of QmiProxySpec it stands for.
    Writing to a descriptor is appending to a log. */
module QmiProxy {
  import opened QList
  import opened Seqs
  import Spec = QmiProxySpec
  import Runs = QmiProxyRuns
  import opened Options

  /** QMI_PROXY_CONNECTION: its own list node is the QNode holding it; `clients` is client_qnode. */
  datatype Connection = Connection(fd: nat, clients: QNode<Spec.Client>)

  /** Every node carries its record. */
  ghost predicate Filled<T>(nodes: seq<QNode<T>>) { forall i :: 0 <= i < |nodes| ==> nodes[i].item.Some? }

  /** The records on a list. */
  ghost function Items<T>(nodes: seq<QNode<T>>): (items: seq<T>)
    requires Filled(nodes)
    ensures |items| == |nodes|
    ensures forall i :: 0 <= i < |nodes| ==> items[i] == nodes[i].item.value
  {
    seq(|nodes|, i requires 0 <= i < |nodes| => nodes[i].item.value)
  }

  /** Every element of `a` is one of `b`. */
  ghost predicate Within<T>(a: seq<T>, b: seq<T>) { forall j :: 0 <= j < |a| ==> a[j] in b }

  /** A head and its nodes are a list of records. */
  ghost predicate List<T>(head: QNode<T>, nodes: seq<QNode<T>>)
    reads head, nodes
  {
    Ring(head, nodes) && Filled(nodes)
  }

  /** Removing the k-th node. */
  method Unlink<T>(item: QNode<T>, ghost head: QNode<T>, ghost nodes: seq<QNode<T>>, ghost k: nat)
    requires List(head, nodes) && k < |nodes| && nodes[k] == item
    modifies head, nodes
    ensures List(head, Cut(nodes, k))
    ensures Items(Cut(nodes, k)) == Cut(Items(nodes), k)
  {
    Following(head, nodes, k);
    Remove(item, head, nodes, k);
  }

  /** Appending a new node. */
  method Link<T>(item: QNode<T>, head: QNode<T>, ghost nodes: seq<QNode<T>>)
    requires List(head, nodes) && item != head && item !in nodes && item.item.Some?
    modifies item, head, nodes
    ensures List(head, nodes + [item])
    ensures Items(nodes + [item]) == Items(nodes) + [item.item.value]
  {
    Front(head, nodes);
    AddTail(head, item, nodes);
  }

  /** The search of cleanup_qmi_connection through the queue: the first message from `fd` is dropped. */
  method DropQueued(head: QNode<Spec.CtlMsg>, ghost nodes: seq<QNode<Spec.CtlMsg>>, fd: nat)
    returns (ghost rest: seq<QNode<Spec.CtlMsg>>)
    requires List(head, nodes)
    modifies head, nodes
    ensures List(head, rest) && Within(rest, nodes)
    ensures Items(rest) == Spec.DropMsg(Items(nodes), fd)
  {
    hide Spec.DropMsg;
    rest := nodes;
    ghost var i := 0;
    Front(head, nodes);
    var node := head.next;
    while node != head
      invariant 0 <= i <= |nodes| && node == At(head, nodes, i + 1)
      invariant List(head, nodes)
      invariant forall j :: 0 <= j < i ==> nodes[j].item.value.fd != fd
      decreases |nodes| - i
    {
      Following(head, nodes, i);
      if node.item.value.fd == fd {
        DropMsgAt(Items(nodes), fd, i);
        Unlink(node, head, nodes, i);
        rest := Cut(nodes, i);
        return;
      }
      node := node.next;
      i := i + 1;
    }
    DropMsgAt(Items(nodes), fd, |nodes|);
  }

  lemma {:induction false} DropMsgAt(ctl: seq<Spec.CtlMsg>, fd: nat, k: nat)
    requires k <= |ctl| && forall j :: 0 <= j < k ==> ctl[j].fd != fd
    requires k < |ctl| ==> ctl[k].fd == fd
    ensures Spec.DropMsg(ctl, fd) == if k < |ctl| then Cut(ctl, k) else ctl
  {
    if k > 0 {
      DropMsgAt(ctl[1..], fd, k - 1);
    }
  }

  // ----- one client table

  type ClientNode = QNode<Spec.Client>

  /** The nodes of a list and its head. */
  ghost function Whole(head: ClientNode, nodes: seq<ClientNode>): set<ClientNode> {
    {head} + set n | n in nodes
  }

  /** The inner loop of cleanup_qmi_connection: the table is emptied from the front. */
  method DrainClients(head: ClientNode, ghost nodes: seq<ClientNode>)
    requires List(head, nodes)
    modifies head, nodes
    ensures List(head, [])
  {
    ghost var rest := nodes;
    Front(head, nodes);
    while !Empty(head)
      invariant List(head, rest) && (Empty(head) <==> rest == [])
      invariant |rest| <= |nodes| && rest == nodes[|nodes| - |rest|..]
      decreases |rest|
    {
      Front(head, rest);
      assert forall n :: n in rest ==> n in nodes;
      Unlink(head.next, head, rest, 0);
      rest := Cut(rest, 0);
      Front(head, rest);
    }
  }

  /** get_client_id, after the response was found successful. */
  method AddClient(head: ClientNode, c: Spec.Client, ghost nodes: seq<ClientNode>)
    returns (ghost added: ClientNode)
    requires List(head, nodes)
    modifies head, nodes
    ensures fresh(added) && List(head, nodes + [added])
    ensures Items(nodes + [added]) == Items(nodes) + [c]
  {
    var node := new QNode(Some(c));
    Link(node, head, nodes);
    added := node;
  }

  /** release_client_id, after the response was found successful: the first equal record goes. */
  method RemoveClient(head: ClientNode, c: Spec.Client, ghost nodes: seq<ClientNode>)
    returns (ghost rest: seq<ClientNode>)
    requires List(head, nodes)
    modifies head, nodes
    ensures List(head, rest) && (forall n :: n in rest ==> n in nodes)
    ensures Items(rest) == Spec.Without(Items(nodes), c)
  {
    hide Spec.Without;
    rest := nodes;
    ghost var i := 0;
    Front(head, nodes);
    var node := head.next;
    while node != head
      invariant 0 <= i <= |nodes| && node == At(head, nodes, i + 1)
      invariant List(head, nodes)
      invariant forall j :: 0 <= j < i ==> nodes[j].item.value != c
      decreases |nodes| - i
    {
      Following(head, nodes, i);
      if c.qmiType == node.item.value.qmiType && c.clientId == node.item.value.clientId {
        WithoutAt(Items(nodes), c, i);
        Unlink(node, head, nodes, i);
        rest := Cut(nodes, i);
        return;
      }
      node := node.next;
      i := i + 1;
    }
    WithoutAt(Items(nodes), c, |nodes|);
  }

  lemma {:induction false} WithoutAt(table: seq<Spec.Client>, c: Spec.Client, k: nat)
    requires k <= |table| && forall j :: 0 <= j < k ==> table[j] != c
    requires k < |table| ==> table[k] == c
    ensures Spec.Without(table, c) == if k < |table| then Cut(table, k) else table
  {
    if k > 0 {
      WithoutAt(table[1..], c, k - 1);
    }
  }

  /** The table update of recv_qmi for the connection the response is delivered to. */
  method LearnClient(head: ClientNode, qmi: Spec.Message, ghost nodes: seq<ClientNode>)
    returns (ghost nodes': seq<ClientNode>, revoked: bool)
    requires List(head, nodes)
    modifies head, nodes
    ensures List(head, nodes') && (forall n :: n in nodes' ==> n in nodes || fresh(n))
    ensures Items(nodes') == Spec.Learn(Items(nodes), qmi)
    ensures revoked == (qmi.ctlType == Spec.REVOKE_CLIENT_ID)
  {
    nodes', revoked := nodes, false;
    if qmi.ctlType == Spec.GET_CLIENT_ID {
      if qmi.result == 0 && qmi.error == 0 {
        ghost var added := AddClient(head, Spec.Client(qmi.grantType, qmi.grantId), nodes);
        nodes' := nodes + [added];
      }
    } else if qmi.ctlType == Spec.RELEASE_CLIENT_ID || qmi.ctlType == Spec.REVOKE_CLIENT_ID {
      if qmi.result == 0 && qmi.error == 0 {
        nodes' := RemoveClient(head, Spec.Client(qmi.grantType, qmi.grantId), nodes);
      }
      revoked := qmi.ctlType == Spec.REVOKE_CLIENT_ID;
    }
  }

  // ----- the whole proxy

  type ConNode = QNode<Connection>

  /** No record is on two lists: the lists, heads included, have no node in common. */
  ghost predicate Apart(conns: seq<ConNode>, tables: seq<seq<ClientNode>>, fp: set<ClientNode>)
    requires Filled(conns)
  {
    && |tables| == |conns|
    && (forall i :: 0 <= i < |conns| ==> Whole(conns[i].item.value.clients, tables[i]) <= fp)
    && (forall i :: 0 <= i < |conns| ==> conns[i].item.value.clients in fp && forall n :: n in tables[i] ==> n in fp)
    && (forall i, j :: 0 <= i < j < |conns| ==>
          Whole(conns[i].item.value.clients, tables[i]) !! Whole(conns[j].item.value.clients, tables[j]))
  }

  /** Each connection's table is a list, apart from all the others. */
  ghost predicate Tables(conns: seq<ConNode>, tables: seq<seq<ClientNode>>, fp: set<ClientNode>)
    requires Filled(conns)
    reads fp
  {
    && Apart(conns, tables, fp)
    && forall i :: 0 <= i < |conns| ==> List(conns[i].item.value.clients, tables[i])
  }

  /** Putting a changed list in place of the k-th table. */
  lemma TablesReplaced(conns: seq<ConNode>, tables: seq<seq<ClientNode>>, fp: set<ClientNode>,
                       k: nat, nodes: seq<ClientNode>)
    requires Filled(conns) && Apart(conns, tables, fp) && k < |conns|
    requires forall i :: 0 <= i < |conns| && i != k ==> List(conns[i].item.value.clients, tables[i])
    requires List(conns[k].item.value.clients, nodes)
    requires forall n :: n in nodes ==> n in tables[k] || n !in fp
    ensures Tables(conns, tables[k := nodes], fp + set n | n in nodes)
  {
    var tables' := tables[k := nodes];
    forall i, j | 0 <= i < j < |conns|
      ensures Whole(conns[i].item.value.clients, tables'[i]) !! Whole(conns[j].item.value.clients, tables'[j])
    {
      assert Whole(conns[i].item.value.clients, tables[i]) !! Whole(conns[j].item.value.clients, tables[j]);
    }
  }

  ghost predicate AllFilled(conns: seq<ConNode>, tables: seq<seq<ClientNode>>) {
    Filled(conns) && |tables| == |conns| && forall i :: 0 <= i < |tables| ==> Filled(tables[i])
  }

  /** The connections as values. */
  ghost function ConnItems(conns: seq<ConNode>, tables: seq<seq<ClientNode>>): (cs: seq<Spec.Conn>)
    requires AllFilled(conns, tables)
    ensures |cs| == |conns|
    ensures forall i :: 0 <= i < |conns| ==> cs[i] == Spec.Conn(conns[i].item.value.fd, Items(tables[i]))
  {
    seq(|conns|, i requires 0 <= i < |conns| && AllFilled(conns, tables) =>
      Spec.Conn(conns[i].item.value.fd, Items(tables[i])))
  }

  lemma TablesExtended(conns: seq<ConNode>, tables: seq<seq<ClientNode>>, fp: set<ClientNode>, con: ConNode)
    requires Filled(conns) && Tables(conns, tables, fp) && con.item.Some?
    requires con.item.value.clients !in fp && Ring(con.item.value.clients, [])
    ensures Filled(conns + [con]) && Tables(conns + [con], tables + [[]], fp + {con.item.value.clients})
    ensures ConnItems(conns + [con], tables + [[]]) == ConnItems(conns, tables) + [Spec.Conn(con.item.value.fd, [])]
  {
    var conns', tables', fp' := conns + [con], tables + [[]], fp + {con.item.value.clients};
    forall i | 0 <= i < |conns'|
      ensures var c := conns'[i].item.value.clients;
              && Whole(c, tables'[i]) <= fp' && c in fp' && (forall n :: n in tables'[i] ==> n in fp')
              && List(c, tables'[i])
    {
      if i < |conns| {
        assert conns'[i] == conns[i] && tables'[i] == tables[i];
      }
    }
    assert AllFilled(conns', tables');
  }

  /** The record that accept_qmi_connection allocates. */
  method NewConnection(clientfd: int) returns (con: ConNode)
    ensures fresh(con) && con.item.Some? && con.item.value.fd == clientfd % 256
    ensures fresh(con.item.value.clients) && Ring(con.item.value.clients, [])
  {
    var clients := new QNode<Spec.Client>(None);
    Init(clients);
    con := new QNode(Some(Connection(clientfd % 256, clients)));
  }

  class Proxy {
    const conHead: ConNode
    const ctlHead: QNode<Spec.CtlMsg>
    var reset: bool
    /** What was written to the modem and to the clients so far. */
    var toModem: seq<Spec.Message>
    var toClients: seq<Spec.Delivery>

    ghost var conns: seq<ConNode>
    ghost var tables: seq<seq<ClientNode>>
    ghost var queue: seq<QNode<Spec.CtlMsg>>
    ghost var fp: set<ClientNode>

    ghost predicate Valid()
      reads this, conHead, conns, ctlHead, queue, fp
    {
      && List(conHead, conns)
      && List(ctlHead, queue)
      && AllFilled(conns, tables)
      && Tables(conns, tables, fp)
    }

    /** The value this heap structure stands for. */
    ghost function Model(): Spec.State
      reads this, conHead, conns, ctlHead, queue, fp
      requires Valid()
    {
      Spec.State(ConnItems(conns, tables), Items(queue), reset)
    }

    constructor ()
      ensures Valid() && Model() == Spec.State([], [], false)
      ensures toModem == [] && toClients == []
    {
      conHead := new QNode(None);
      ctlHead := new QNode(None);
      reset, toModem, toClients := false, [], [];
      conns, tables, queue, fp := [], [], [], {};
      new;
      Init(conHead);
      Init(ctlHead);
    }

    /** accept_qmi_connection. */
    method Accept(clientfd: int)
      requires Valid()
      modifies this`conns, this`tables, this`fp, conHead, conns
      ensures Valid() && Model() == Spec.Accept(old(Model()), clientfd)
      ensures fresh(fp - old(fp)) && forall j :: 0 <= j < |conns| ==> conns[j] in old(conns) || fresh(conns[j])
    {
      hide Tables, ConnItems, Ring;
      var con := NewConnection(clientfd);
      Link(con, conHead, conns);
      TablesExtended(conns, tables, fp, con);
      conns := conns + [con];
      tables := tables + [[]];
      fp := fp + {con.item.value.clients};
    }

    /** What cleanup_qmi_connection does once it has found the connection. */
    method CloseAt(con: ConNode, ghost k: nat)
      requires Valid() && k < |conns| && conns[k] == con
      modifies this`conns, this`tables, this`queue, conHead, conns, ctlHead, queue, fp
      ensures Valid()
      ensures Within(conns, old(conns)) && Within(queue, old(queue))
      ensures var s := old(Model());
              Model() == Spec.State(Cut(s.conns, k), Spec.DropMsg(s.ctl, s.conns[k].fd), s.reset)
    {
      hide Ring, Tables, ConnItems, Items;
      var fd := con.item.value.fd;
      TablesShape(conns, tables, fp);
      CutIgnores(conns, tables, k);
      assert Model().conns[k].fd == fd;
      DrainTable(con, k);
      DropMessage(fd);
      DropConnection(con, k);
    }

    /** The queue search of cleanup_qmi_connection. */
    method DropMessage(fd: nat)
      requires Valid()
      modifies this`queue, ctlHead, queue
      ensures Valid() && Items(queue) == Spec.DropMsg(old(Items(queue)), fd)
      ensures Within(queue, old(queue))
    {
      hide Ring, Tables, Items;
      queue := DropQueued(ctlHead, queue, fd);
    }

    /** The connection itself leaves the list; its table is empty by then. */
    method DropConnection(con: ConNode, ghost k: nat)
      requires Valid() && k < |conns| && conns[k] == con
      modifies this`conns, this`tables, conHead, conns
      ensures Valid() && ConnItems(conns, tables) == Cut(old(ConnItems(conns, tables)), k)
      ensures Within(conns, old(conns))
    {
      hide Ring, Tables, ConnItems, Items;
      assert |tables| == |conns| by { TablesShape(conns, tables, fp); }
      Unlink(con, conHead, conns, k);
      TablesCut(conns, tables, fp, k);
      conns := Cut(conns, k);
      tables := Cut(tables, k);
    }

    /** Emptying one connection's table leaves all the others as they were. */
    method DrainTable(con: ConNode, ghost k: nat)
      requires Valid() && k < |conns| && conns[k] == con
      modifies this`tables, fp
      ensures Valid() && tables == old(tables[k := []])
    {
      hide Ring, Tables, ConnItems;
      TablesShape(conns, tables, fp);
      DrainAt(con, k);
      ghost var none: seq<ClientNode> := [];
      TablesReplaced(conns, tables, fp, k, none);
      assert fp + (set n | n in none) == fp;
      tables := tables[k := none];
    }

    /** Only the nodes of the k-th table change. */
    method DrainAt(con: ConNode, ghost k: nat)
      requires Valid() && k < |conns| && conns[k] == con
      modifies fp
      ensures List(conHead, conns) && List(ctlHead, queue) && Apart(conns, tables, fp)
      ensures forall i :: 0 <= i < |conns| && i != k ==> List(conns[i].item.value.clients, tables[i])
      ensures List(con.item.value.clients, [])
    {
      var head := con.item.value.clients;
      assert Whole(head, tables[k]) == {head} + set n | n in tables[k];
      DrainClients(head, tables[k]);
      forall i | 0 <= i < |conns| && i != k ensures Ring(conns[i].item.value.clients, tables[i]) {
        var h, nodes := conns[i].item.value.clients, tables[i];
        assert Whole(h, nodes) !! Whole(head, tables[k]);
        assert h in Whole(h, nodes) && forall n :: n in nodes ==> n in Whole(h, nodes);
        forall j | 0 <= j <= |nodes| ensures Linked(h, nodes, j) {
          assert At(h, nodes, j) in Whole(h, nodes) && At(h, nodes, j + 1) in Whole(h, nodes);
          assert old(Linked(h, nodes, j));
        }
      }
    }

    /** The search that opens cleanup_qmi_connection; the head stands for not found. */
    method Find(clientfd: int) returns (con: ConNode, ghost k: nat)
      requires Valid()
      ensures k <= |conns| && con == At(conHead, conns, k + 1) && (con == conHead <==> k == |conns|)
      ensures con != conHead ==> con in conns && con.item.value.fd == clientfd
      ensures con == conHead <==> forall j :: 0 <= j < |conns| ==> conns[j].item.value.fd != clientfd
      ensures forall j :: 0 <= j < k ==> conns[j].item.value.fd != clientfd
    {
      k := 0;
      Front(conHead, conns);
      con := conHead.next;
      while con != conHead && con.item.value.fd != clientfd
        invariant k <= |conns| && con == At(conHead, conns, k + 1)
        invariant con == conHead <==> k == |conns|
        invariant forall j :: 0 <= j < k ==> conns[j].item.value.fd != clientfd
        decreases |conns| - k
      {
        Following(conHead, conns, k);
        con := con.next;
        k := k + 1;
      }
    }

    /** cleanup_qmi_connection. */
    method Close(clientfd: int)
      requires Valid()
      modifies this`conns, this`tables, this`queue, conHead, conns, ctlHead, queue, fp
      ensures Valid() && Model() == Spec.Close(old(Model()), clientfd)
      ensures Within(conns, old(conns)) && Within(queue, old(queue))
    {
      hide Ring, Tables;
      ghost var s := Model();
      var con;
      ghost var k;
      con, k := Find(clientfd);
      if con != conHead {
        CloseFirst(s, clientfd, k);
        CloseAt(con, k);
      }
    }

    /** send_qmi while the server is up. */
    method Send(qmi: Spec.Message, clientfd: int)
      requires Valid()
      modifies this`toModem, this`queue, ctlHead, queue
      ensures Valid()
      ensures var (s', out) := Spec.Send(old(Model()), qmi, clientfd);
              Model() == s' && toModem == old(toModem) + out.toModem && toClients == old(toClients) + out.toClients
      ensures forall j :: 0 <= j < |queue| ==> queue[j] in old(queue) || fresh(queue[j])
    {
      hide Ring, Tables, ConnItems, Items;
      if qmi.qmiType == Spec.CTL {
        Front(ctlHead, queue);
        if Empty(ctlHead) {
          toModem := toModem + [qmi];
        }
        EmptyItems(queue);
        var msg := new QNode(Some(Spec.CtlMsg(clientfd % 256, qmi)));
        Link(msg, ctlHead, queue);
        queue := queue + [msg];
      } else {
        toModem := toModem + [qmi];
      }
    }

    /** The table of the k-th connection learns from a CTL response; all the others stay. */
    method LearnAt(con: ConNode, qmi: Spec.Message, ghost k: nat) returns (revoked: bool)
      requires Valid() && k < |conns| && conns[k] == con
      modifies this`tables, this`fp, fp
      ensures Valid() && fresh(fp - old(fp))
      ensures var cs := old(ConnItems(conns, tables));
              ConnItems(conns, tables) == cs[k := cs[k].(clients := Spec.Learn(cs[k].clients, qmi))]
      ensures revoked == (qmi.ctlType == Spec.REVOKE_CLIENT_ID)
    {
      hide Ring, Spec.Learn, Tables;
      TablesShape(conns, tables, fp);
      ghost var nodes';
      nodes', revoked := LearnTable(con, qmi, k);
      TablesReplaced(conns, tables, fp, k, nodes');
      TableItemsReplaced(conns, tables, k, nodes');
      tables := tables[k := nodes'];
      fp := fp + set n | n in nodes';
    }

    /** Only the nodes of the k-th table change. */
    method LearnTable(con: ConNode, qmi: Spec.Message, ghost k: nat)
      returns (ghost nodes': seq<ClientNode>, revoked: bool)
      requires Valid() && k < |conns| && conns[k] == con
      modifies fp
      ensures List(conHead, conns) && List(ctlHead, queue) && Apart(conns, tables, fp)
      ensures forall i :: 0 <= i < |conns| && i != k ==> List(conns[i].item.value.clients, tables[i])
      ensures List(con.item.value.clients, nodes') && forall n :: n in nodes' ==> n in tables[k] || fresh(n)
      ensures Items(nodes') == Spec.Learn(old(Items(tables[k])), qmi)
      ensures revoked == (qmi.ctlType == Spec.REVOKE_CLIENT_ID)
    {
      hide Spec.Learn;
      var head := con.item.value.clients;
      assert Whole(head, tables[k]) == {head} + set n | n in tables[k];
      nodes', revoked := LearnClient(head, qmi, tables[k]);
      forall i | 0 <= i < |conns| && i != k ensures Ring(conns[i].item.value.clients, tables[i]) {
        var h, nodes := conns[i].item.value.clients, tables[i];
        assert Whole(h, nodes) !! Whole(head, tables[k]);
        assert h in Whole(h, nodes) && forall n :: n in nodes ==> n in Whole(h, nodes);
        forall j | 0 <= j <= |nodes| ensures Linked(h, nodes, j) {
          assert At(h, nodes, j) in Whole(h, nodes) && At(h, nodes, j + 1) in Whole(h, nodes);
          assert old(Linked(h, nodes, j));
        }
      }
    }

    /** The body of that loop, at the k-th connection. */
    method DeliverTo(con: ConNode, qmi: Spec.Message, fd: nat, ghost k: nat)
      requires Valid() && k < |conns| && conns[k] == con
      modifies this`tables, this`fp, this`reset, this`toClients, fp
      ensures Valid() && fresh(fp - old(fp))
      ensures var cs := old(ConnItems(conns, tables));
              if cs[k].fd == fd then
                && ConnItems(conns, tables) == cs[k := cs[k].(clients := Spec.Learn(cs[k].clients, qmi))]
                && toClients == old(toClients) + [Spec.Delivery(fd, qmi)]
                && reset == (old(reset) || qmi.ctlType == Spec.REVOKE_CLIENT_ID)
              else
                ConnItems(conns, tables) == cs && toClients == old(toClients) && reset == old(reset)
    {
      hide Ring, Tables, Spec.Learn;
      if con.item.value.fd == fd {
        toClients := toClients + [Spec.Delivery(fd, qmi)];
        var revoked := LearnAt(con, qmi, k);
        reset := reset || revoked;
      }
    }

    /** The first loop of recv_qmi: every connection on `fd` gets the response and learns from it. */
    method Deliver(qmi: Spec.Message, fd: nat)
      requires Valid()
      modifies this`tables, this`fp, this`reset, this`toClients, fp
      ensures Valid() && fresh(fp - old(fp))
      ensures var cs := old(ConnItems(conns, tables));
              && ConnItems(conns, tables) == Spec.LearnAll(cs, fd, qmi)
              && toClients == old(toClients) + Spec.Answer(cs, fd, qmi)
              && reset == (old(reset) || (qmi.ctlType == Spec.REVOKE_CLIENT_ID && Spec.Connected(cs, fd)))
    {
      hide Ring, Tables, ConnItems, Spec.Learn, Spec.LearnAll, Spec.Answer, Spec.Connected, AllFilled, Delivered;
      ghost var cs := ConnItems(conns, tables);
      DeliveredEnds(cs, fd, qmi);
      ghost var i := 0;
      Front(conHead, conns);
      var con := conHead.next;
      while con != conHead
        invariant 0 <= i <= |conns| && con == At(conHead, conns, i + 1)
        invariant Valid() && fresh(fp - old(fp))
        invariant Delivered(cs, fd, qmi, i, old(toClients), old(reset),
                            ConnItems(conns, tables), toClients, reset)
        decreases |conns| - i
      {
        DeliveredStep(cs, fd, qmi, i, old(toClients), old(reset), ConnItems(conns, tables), toClients, reset);
        DeliverTo(con, qmi, fd, i);
        Following(conHead, conns, i);
        con := con.next;
        i := i + 1;
      }
      assert i == |cs|;
      DeliveredEnds(cs, fd, qmi);
    }

    /** The second loop of recv_qmi: the queue head goes to the modem. */
    method KickHead()
      requires Valid() && queue != []
      modifies this`toModem
      ensures toModem == old(toModem) + Spec.Kick(ConnItems(conns, tables), Items(queue)[0])
    {
      hide Ring, Tables, ConnItems, AllFilled, Spec.Kick;
      ghost var cs, head := ConnItems(conns, tables), Items(queue)[0];
      KickEnds(cs, head);
      Front(ctlHead, queue);
      var msg := ctlHead.next.item.value;
      ghost var i := 0;
      Front(conHead, conns);
      var con := conHead.next;
      while con != conHead
        modifies this`toModem
        invariant 0 <= i <= |conns| && con == At(conHead, conns, i + 1)
        invariant toModem == old(toModem) + Spec.Kick(cs[..i], head)
        decreases |conns| - i
      {
        Following(conHead, conns, i);
        KickSnoc(cs, i, head);
        if con.item.value.fd == msg.fd {
          toModem := toModem + [msg.qmi];
        }
        con := con.next;
        i := i + 1;
      }
      assert cs[..|cs|] == cs;
    }

    /** The last loops of recv_qmi: a service message goes to every client it addresses. */
    method RouteMessage(qmi: Spec.Message)
      requires Valid()
      modifies this`toClients
      ensures toClients == old(toClients) + Spec.Route(ConnItems(conns, tables), qmi)
    {
      hide Ring, ConnItems, AllFilled, Spec.Route, Spec.RouteClients;
      ghost var cs := ConnItems(conns, tables);
      RouteEnds(cs, qmi);
      ghost var i := 0;
      Front(conHead, conns);
      var con := conHead.next;
      while con != conHead
        modifies this`toClients
        invariant 0 <= i <= |conns| && con == At(conHead, conns, i + 1)
        invariant toClients == old(toClients) + Spec.Route(cs[..i], qmi)
        decreases |conns| - i
      {
        Following(conHead, conns, i);
        RouteSnoc(cs, i, qmi);
        RouteTable(con, qmi, tables[i]);
        con := con.next;
        i := i + 1;
      }
      assert cs[..|cs|] == cs;
    }

    /** The inner of those loops, over one connection's clients. */
    method RouteTable(con: ConNode, qmi: Spec.Message, ghost nodes: seq<ClientNode>)
      requires con.item.Some? && List(con.item.value.clients, nodes)
      modifies this`toClients
      ensures toClients == old(toClients) + Spec.RouteClients(con.item.value.fd, Items(nodes), qmi)
    {
      hide Ring, Spec.RouteClients;
      var head := con.item.value.clients;
      ghost var fd, table := con.item.value.fd, Items(nodes);
      RouteClientsEnds(fd, table, qmi);
      ghost var i := 0;
      Front(head, nodes);
      var node := head.next;
      while node != head
        modifies this`toClients
        invariant 0 <= i <= |nodes| && node == At(head, nodes, i + 1)
        invariant toClients == old(toClients) + Spec.RouteClients(fd, table[..i], qmi)
        decreases |nodes| - i
      {
        Following(head, nodes, i);
        RouteClientsSnoc(fd, table, i, qmi);
        if qmi.qmiType == node.item.value.qmiType {
          if qmi.clientId == 0 || qmi.clientId == node.item.value.clientId {
            toClients := toClients + [Spec.Delivery(con.item.value.fd, qmi)];
          }
        }
        node := node.next;
        i := i + 1;
      }
      assert table[..|table|] == table;
    }

    /** recv_qmi while the server is up. */
    method Recv(qmi: Spec.Message)
      requires Valid()
      modifies this`tables, this`fp, this`reset, this`toModem, this`toClients, this`queue, ctlHead, queue, fp
      ensures Valid() && fresh(fp - old(fp)) && Within(queue, old(queue))
      ensures var (s', out) := Spec.Recv(old(Model()), qmi);
              Model() == s' && toModem == old(toModem) + out.toModem && toClients == old(toClients) + out.toClients
    {
      hide Ring, Tables, ConnItems, Items, AllFilled, Spec.LearnAll, Spec.Answer, Spec.Connected, Spec.Kick, Spec.Route;
      if qmi.qmiType == Spec.CTL {
        if qmi.ctlFlags == Spec.FLAG_RSP {
          Respond(qmi);
        }
        Front(ctlHead, queue);
        if !Empty(ctlHead) {
          KickHead();
        }
      } else {
        RouteMessage(qmi);
      }
    }

    /** The response branch of recv_qmi. */
    method Respond(qmi: Spec.Message)
      requires Valid() && qmi.ctlFlags == Spec.FLAG_RSP
      modifies this`tables, this`fp, this`reset, this`toClients, this`queue, ctlHead, queue, fp
      ensures Valid() && fresh(fp - old(fp)) && Within(queue, old(queue))
      ensures var (s', answers) := Spec.Respond(old(Model()), qmi);
              Model() == s' && toClients == old(toClients) + answers
    {
      hide Ring, Tables, ConnItems, AllFilled, Spec.LearnAll, Spec.Answer, Spec.Connected;
      Front(ctlHead, queue);
      if !Empty(ctlHead) {
        var msg := ctlHead.next;
        Deliver(qmi, msg.item.value.fd);
        PopHead();
      }
    }

    /** The answered request leaves the queue. */
    method PopHead()
      requires Valid() && queue != []
      modifies this`queue, ctlHead, queue
      ensures Valid() && Items(queue) == old(Items(queue))[1..] && Within(queue, old(queue))
    {
      hide Ring, Tables, ConnItems, AllFilled, Items;
      Front(ctlHead, queue);
      CutFirst(Items(queue));
      Unlink(ctlHead.next, ctlHead, queue, 0);
      queue := Cut(queue, 0);
    }

    /** The body of that loop: the first connection is closed. */
    method CloseFront()
      requires Valid() && conns != []
      modifies this`conns, this`tables, this`queue, conHead, conns, ctlHead, queue, fp
      ensures Valid() && |conns| == |old(conns)| - 1
      ensures Spec.Shutdown(Model()) == Spec.Shutdown(old(Model()))
      ensures Within(conns, old(conns)) && Within(queue, old(queue))
    {
      hide Ring, Tables, ConnItems, Items, AllFilled, Spec.Close, Spec.Shutdown;
      Front(conHead, conns);
      TableItems(conns, tables);
      CloseShrinks(Model());
      Close(conHead.next.item.value.fd);
    }

    /** The loop at qmi_proxy_loop_exit. */
    method Exit()
      requires Valid()
      modifies this`conns, this`tables, this`queue, conHead, conns, ctlHead, queue, fp
      ensures Valid() && Empty(conHead) && Model() == Spec.Shutdown(old(Model()))
    {
      hide Ring, Tables, ConnItems, Items, AllFilled, Spec.Shutdown, Filled;
      Front(conHead, conns);
      while !Empty(conHead)
        invariant Valid() && fp == old(fp) && (Empty(conHead) <==> conns == [])
        invariant Within(conns, old(conns)) && Within(queue, old(queue))
        invariant Spec.Shutdown(Model()) == Spec.Shutdown(old(Model()))
        decreases |conns|
      {
        CloseFront();
        Front(conHead, conns);
      }
      ShutdownDone(Model());
    }

    /** One turn of the server's loop. */
    method Handle(e: Spec.Event)
      requires Valid()
      modifies this, conHead, conns, ctlHead, queue, fp
      ensures Valid()
      ensures var (s', out) := Spec.Step(old(Model()), e);
              Model() == s' && toModem == old(toModem) + out.toModem && toClients == old(toClients) + out.toClients
      ensures fresh(fp - old(fp))
      ensures forall j :: 0 <= j < |conns| ==> conns[j] in old(conns) || fresh(conns[j])
      ensures forall j :: 0 <= j < |queue| ==> queue[j] in old(queue) || fresh(queue[j])
    {
      hide Ring, Tables, ConnItems, Items, AllFilled, Spec.Accept, Spec.Close, Spec.Send, Spec.Recv;
      match e
      case Accepted(fd) => Accept(fd);
      case Closed(fd) => Close(fd);
      case FromClient(fd, qmi) => Send(qmi, fd);
      case FromModem(qmi) => Recv(qmi);
    }

    /** The server over a whole run, from a new proxy on: what crossed its borders is what
        QmiProxyRuns.Run says, so over an orderly run the CTL requests form the FIFO of FifoFromStart. */
    method Serve(events: seq<Spec.Event>)
      requires Valid() && Model() == Runs.NEW_PROXY.s && toModem == [] && toClients == []
      modifies this, conHead, conns, ctlHead, queue, fp
      ensures Valid()
      ensures var w := Runs.Run(Runs.NEW_PROXY, events);
              && Model() == w.s
              && Runs.CtlOnly(toModem) == w.ctlToModem
              && Runs.CtlDeliveries(toClients) == w.ctlToClients
              && (Runs.OrderlyRun(Runs.NEW_PROXY, events) ==> Runs.Fifo(w))
      ensures Runs.Service(toModem) == Runs.ServiceAsked(events)
      ensures Runs.ServiceDeliveries(toClients) == Runs.ServiceOwed(Runs.NEW_PROXY.s, events)
    {
      hide Ring, Tables, ConnItems, Items, AllFilled, Valid, Spec.Step, Runs.CtlOnly, Runs.CtlDeliveries;
      hide Runs.Service, Runs.ServiceDeliveries, Runs.ServiceAsked, Runs.ServiceOwed, Runs.Written, Runs.Handed;
      hide Runs.Advance, Runs.OrderlyRun;
      ghost var w := Runs.NEW_PROXY;
      NothingYet();
      var i := 0;
      while i < |events|
        invariant 0 <= i <= |events| && Valid()
        invariant fresh(fp - old(fp))
        invariant forall j :: 0 <= j < |conns| ==> conns[j] in old(conns) || fresh(conns[j])
        invariant forall j :: 0 <= j < |queue| ==> queue[j] in old(queue) || fresh(queue[j])
        invariant Crossed(w, Model(), toModem, toClients)
        invariant Runs.Run(w, events[i..]) == Runs.Run(Runs.NEW_PROXY, events)
        invariant toModem + Runs.Written(Model(), events[i..]) == Runs.Written(Runs.NEW_PROXY.s, events)
        invariant toClients + Runs.Handed(Model(), events[i..]) == Runs.Handed(Runs.NEW_PROXY.s, events)
      {
        ghost var s, m, c := Model(), toModem, toClients;
        assert events[i..][1..] == events[i + 1..];
        WrittenStep(s, events[i..], m, c);
        Handle(events[i]);
        CrossedStep(w, s, m, c, events[i]);
        w := Runs.Advance(w, events[i]);
        i := i + 1;
      }
      assert events[|events|..] == [];
      NothingWritten(Model(), toModem, toClients);
      Runs.ServiceOverRuns(Runs.NEW_PROXY.s, events);
      if Runs.OrderlyRun(Runs.NEW_PROXY, events) {
        Runs.FifoOverRuns(Runs.NEW_PROXY, events);
      }
    }
  }

  /** The state, and what crossed the proxy's borders, are those of `w`. */
  ghost predicate Crossed(w: Runs.World, s: Spec.State, toModem: seq<Spec.Message>, toClients: seq<Spec.Delivery>) {
    s == w.s && Runs.CtlOnly(toModem) == w.ctlToModem && Runs.CtlDeliveries(toClients) == w.ctlToClients
  }

  lemma WrittenStep(s: Spec.State, events: seq<Spec.Event>, toModem: seq<Spec.Message>, toClients: seq<Spec.Delivery>)
    requires events != []
    ensures var (s', out) := Spec.Step(s, events[0]);
            && toModem + Runs.Written(s, events) == toModem + out.toModem + Runs.Written(s', events[1..])
            && toClients + Runs.Handed(s, events) == toClients + out.toClients + Runs.Handed(s', events[1..])
  {
    hide Spec.Step;
    var (s', out) := Spec.Step(s, events[0]);
    Regroup(toModem, out.toModem, Runs.Written(s', events[1..]));
    Regroup(toClients, out.toClients, Runs.Handed(s', events[1..]));
  }

  lemma NothingWritten(s: Spec.State, toModem: seq<Spec.Message>, toClients: seq<Spec.Delivery>)
    ensures toModem + Runs.Written(s, []) == toModem && toClients + Runs.Handed(s, []) == toClients
  {
  }

  lemma NothingYet()
    ensures Crossed(Runs.NEW_PROXY, Runs.NEW_PROXY.s, [], [])
  {
  }

  lemma CrossedStep(w: Runs.World, s: Spec.State, toModem: seq<Spec.Message>, toClients: seq<Spec.Delivery>,
                    e: Spec.Event)
    requires Crossed(w, s, toModem, toClients)
    ensures var (s', out) := Spec.Step(s, e);
            Crossed(Runs.Advance(w, e), s', toModem + out.toModem, toClients + out.toClients)
  {
    hide Spec.Step;
    var (s', out) := Spec.Step(s, e);
    CtlOnlyConcat(toModem, out.toModem);
    Runs.CtlDeliveriesConcat(toClients, out.toClients);
  }

  lemma {:induction false} CtlOnlyConcat(a: seq<Spec.Message>, b: seq<Spec.Message>)
    ensures Runs.CtlOnly(a + b) == Runs.CtlOnly(a) + Runs.CtlOnly(b)
  {
    if a == [] {
      assert a + b == b;
    } else {
      assert (a + b)[1..] == a[1..] + b;
      CtlOnlyConcat(a[1..], b);
      Regroup(if a[0].qmiType == Spec.CTL then [a[0]] else [], Runs.CtlOnly(a[1..]), Runs.CtlOnly(b));
    }
  }

  lemma CutFirst<T>(s: seq<T>)
    requires s != []
    ensures Cut(s, 0) == s[1..]
  {
  }

  lemma CloseShrinks(s: Spec.State)
    requires s.conns != []
    ensures |Spec.Close(s, s.conns[0].fd).conns| == |s.conns| - 1
    ensures Spec.Shutdown(Spec.Close(s, s.conns[0].fd)) == Spec.Shutdown(s)
  {
    assert Spec.Connected(s.conns, s.conns[0].fd);
  }

  lemma ShutdownDone(s: Spec.State)
    requires s.conns == []
    ensures Spec.Shutdown(s) == s
  {
  }

  lemma KickEnds(cs: seq<Spec.Conn>, head: Spec.CtlMsg)
    ensures Spec.Kick(cs[..0], head) == []
  {
  }

  lemma RouteEnds(cs: seq<Spec.Conn>, qmi: Spec.Message)
    ensures Spec.Route(cs[..0], qmi) == []
  {
  }

  lemma RouteClientsEnds(fd: nat, table: seq<Spec.Client>, qmi: Spec.Message)
    ensures Spec.RouteClients(fd, table[..0], qmi) == []
  {
  }

  lemma {:induction false} KickSnoc(cs: seq<Spec.Conn>, i: nat, head: Spec.CtlMsg)
    requires i < |cs|
    ensures Spec.Kick(cs[..i + 1], head) == Spec.Kick(cs[..i], head) + if cs[i].fd == head.fd then [head.qmi] else []
  {
    if i > 0 {
      assert cs[..i + 1][1..] == cs[1..][..i] && cs[..i][1..] == cs[1..][..i - 1];
      KickSnoc(cs[1..], i - 1, head);
    } else {
      assert Spec.Kick(cs[..1][1..], head) == [];
    }
  }

  lemma {:induction false} RouteSnoc(cs: seq<Spec.Conn>, i: nat, qmi: Spec.Message)
    requires i < |cs|
    ensures Spec.Route(cs[..i + 1], qmi) ==
            Spec.Route(cs[..i], qmi) + Spec.RouteClients(cs[i].fd, cs[i].clients, qmi)
  {
    hide Spec.RouteClients;
    if i > 0 {
      assert cs[..i + 1][1..] == cs[1..][..i] && cs[..i][1..] == cs[1..][..i - 1];
      RouteSnoc(cs[1..], i - 1, qmi);
    } else {
      assert Spec.Route(cs[..1][1..], qmi) == [];
    }
  }

  lemma {:induction false} RouteClientsSnoc(fd: nat, table: seq<Spec.Client>, i: nat, qmi: Spec.Message)
    requires i < |table|
    ensures Spec.RouteClients(fd, table[..i + 1], qmi) ==
            Spec.RouteClients(fd, table[..i], qmi)
            + if qmi.qmiType == table[i].qmiType && (qmi.clientId == 0 || qmi.clientId == table[i].clientId)
              then [Spec.Delivery(fd, qmi)] else []
  {
    if i > 0 {
      assert table[..i + 1][1..] == table[1..][..i] && table[..i][1..] == table[1..][..i - 1];
      RouteClientsSnoc(fd, table[1..], i - 1, qmi);
    } else {
      assert Spec.RouteClients(fd, table[..1][1..], qmi) == [];
    }
  }

  /** How far recv_qmi got: the first i connections have been dealt with. */
  ghost predicate Delivered(cs: seq<Spec.Conn>, fd: nat, qmi: Spec.Message, i: nat,
                            clients0: seq<Spec.Delivery>, reset0: bool,
                            now: seq<Spec.Conn>, clients: seq<Spec.Delivery>, reset: bool)
    requires i <= |cs|
  {
    && now == Spec.LearnAll(cs[..i], fd, qmi) + cs[i..]
    && clients == clients0 + Spec.Answer(cs[..i], fd, qmi)
    && reset == (reset0 || (qmi.ctlType == Spec.REVOKE_CLIENT_ID && Spec.Connected(cs[..i], fd)))
  }

  lemma DeliveredEnds(cs: seq<Spec.Conn>, fd: nat, qmi: Spec.Message)
    ensures forall c0, r0 :: Delivered(cs, fd, qmi, 0, c0, r0, cs, c0, r0)
    ensures forall c0, r0, now, c, r :: Delivered(cs, fd, qmi, |cs|, c0, r0, now, c, r) ==>
              && now == Spec.LearnAll(cs, fd, qmi)
              && c == c0 + Spec.Answer(cs, fd, qmi)
              && r == (r0 || (qmi.ctlType == Spec.REVOKE_CLIENT_ID && Spec.Connected(cs, fd)))
  {
    hide Spec.Learn;
    assert cs[..|cs|] == cs;
    assert cs[..0] == [] && cs[0..] == cs;
    assert Spec.LearnAll([], fd, qmi) == [];
  }

  lemma DeliveredStep(cs: seq<Spec.Conn>, fd: nat, qmi: Spec.Message, i: nat,
                      clients0: seq<Spec.Delivery>, reset0: bool,
                      now: seq<Spec.Conn>, clients: seq<Spec.Delivery>, reset: bool)
    requires i < |cs| && Delivered(cs, fd, qmi, i, clients0, reset0, now, clients, reset)
    ensures |now| == |cs| && now[i] == cs[i]
    ensures if cs[i].fd == fd then
              Delivered(cs, fd, qmi, i + 1, clients0, reset0,
                        now[i := cs[i].(clients := Spec.Learn(cs[i].clients, qmi))],
                        clients + [Spec.Delivery(fd, qmi)], reset || qmi.ctlType == Spec.REVOKE_CLIENT_ID)
            else
              Delivered(cs, fd, qmi, i + 1, clients0, reset0, now, clients, reset)
  {
    hide Spec.Learn;
    var done, c := cs[..i], cs[i];
    Runs.LearnAllFds(done, fd, qmi);
    assert cs[..i + 1] == done + [c];
    LearnAllSnoc(done, c, fd, qmi);
    AnswerSnoc(done, c, fd, qmi);
    ConnectedSnoc(cs, fd, i);
    assert now == Spec.LearnAll(done, fd, qmi) + [c] + cs[i + 1..];
  }

  lemma {:induction false} LearnAllSnoc(cs: seq<Spec.Conn>, c: Spec.Conn, fd: nat, qmi: Spec.Message)
    ensures Spec.LearnAll(cs + [c], fd, qmi) == Spec.LearnAll(cs, fd, qmi)
            + [if c.fd == fd then c.(clients := Spec.Learn(c.clients, qmi)) else c]
  {
    hide Spec.Learn;
    if cs == [] {
      assert Spec.LearnAll([c][1..], fd, qmi) == [] && cs + [c] == [c];
    } else {
      assert (cs + [c])[1..] == cs[1..] + [c];
      LearnAllSnoc(cs[1..], c, fd, qmi);
    }
  }

  lemma {:induction false} AnswerSnoc(cs: seq<Spec.Conn>, c: Spec.Conn, fd: nat, qmi: Spec.Message)
    ensures Spec.Answer(cs + [c], fd, qmi) ==
            Spec.Answer(cs, fd, qmi) + if c.fd == fd then [Spec.Delivery(fd, qmi)] else []
  {
    if cs == [] {
      assert Spec.Answer([c][1..], fd, qmi) == [] && cs + [c] == [c];
    } else {
      assert (cs + [c])[1..] == cs[1..] + [c];
      AnswerSnoc(cs[1..], c, fd, qmi);
    }
  }

  lemma ConnectedSnoc(cs: seq<Spec.Conn>, fd: int, i: nat)
    requires i < |cs|
    ensures Spec.Connected(cs[..i + 1], fd) <==> Spec.Connected(cs[..i], fd) || cs[i].fd == fd
  {
    if Spec.Connected(cs[..i], fd) {
      var j :| 0 <= j < |cs[..i]| && cs[..i][j].fd == fd;
      assert cs[..i + 1][j].fd == fd;
    }
    if cs[i].fd == fd {
      assert cs[..i + 1][i].fd == fd;
    }
  }

  lemma EmptyItems<T>(nodes: seq<QNode<T>>)
    requires Filled(nodes)
    ensures Items(nodes) == [] <==> nodes == []
  {
  }

  /** Closing at the first match is closing. */
  lemma CloseFirst(s: Spec.State, fd: int, k: nat)
    requires k < |s.conns| && s.conns[k].fd == fd && forall j :: 0 <= j < k ==> s.conns[j].fd != fd
    ensures Spec.Close(s, fd) == Spec.State(Cut(s.conns, k), Spec.DropMsg(s.ctl, s.conns[k].fd), s.reset)
  {
    DropConnAt(s.conns, fd, k);
  }

  lemma {:induction false} DropConnAt(conns: seq<Spec.Conn>, fd: int, k: nat)
    requires k < |conns| && conns[k].fd == fd && forall j :: 0 <= j < k ==> conns[j].fd != fd
    ensures Spec.DropConn(conns, fd) == Cut(conns, k)
  {
    if k > 0 {
      DropConnAt(conns[1..], fd, k - 1);
    }
  }

  /** The records of a connection that leaves do not matter. */
  lemma CutIgnores(conns: seq<ConNode>, tables: seq<seq<ClientNode>>, k: nat)
    requires AllFilled(conns, tables) && k < |conns|
    ensures Cut(ConnItems(conns, tables[k := []]), k) == Cut(ConnItems(conns, tables), k)
    ensures ConnItems(conns, tables)[k].fd == conns[k].item.value.fd
  {
  }

  lemma TableItemsReplaced(conns: seq<ConNode>, tables: seq<seq<ClientNode>>, k: nat, nodes: seq<ClientNode>)
    requires AllFilled(conns, tables) && k < |conns| && Filled(nodes)
    ensures AllFilled(conns, tables[k := nodes])
    ensures var cs := ConnItems(conns, tables);
            && ConnItems(conns, tables[k := nodes]) == cs[k := cs[k].(clients := Items(nodes))]
            && cs[k].clients == Items(tables[k])
  {
  }

  lemma TableItems(conns: seq<ConNode>, tables: seq<seq<ClientNode>>)
    requires AllFilled(conns, tables)
    ensures forall i :: 0 <= i < |conns| ==> ConnItems(conns, tables)[i].fd == conns[i].item.value.fd
  {
  }

  lemma TablesShape(conns: seq<ConNode>, tables: seq<seq<ClientNode>>, fp: set<ClientNode>)
    requires Filled(conns) && Tables(conns, tables, fp)
    ensures AllFilled(conns, tables)
  {
  }

  lemma TablesCut(conns: seq<ConNode>, tables: seq<seq<ClientNode>>, fp: set<ClientNode>, k: nat)
    requires Filled(conns) && Tables(conns, tables, fp) && k < |conns|
    ensures Filled(Cut(conns, k)) && Tables(Cut(conns, k), Cut(tables, k), fp)
    ensures ConnItems(Cut(conns, k), Cut(tables, k)) == Cut(ConnItems(conns, tables), k)
  {
    var conns', tables' := Cut(conns, k), Cut(tables, k);
    forall i | 0 <= i < |conns'|
      ensures conns'[i] == conns[if i < k then i else i + 1] && tables'[i] == tables[if i < k then i else i + 1]
    {
    }
    assert AllFilled(conns', tables');
  }
}
