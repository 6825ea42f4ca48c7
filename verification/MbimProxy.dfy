/** The MBIM proxy's slot table and message header, changed in place as the program does
    (mobile/quectel-CM/src/quectel-mbim-proxy.c). Each handler is proved to take the step of
    MbimProxySpec. */
module MbimProxy {
  import opened MbimProxySpec

  /** The one field of a message header that the proxy reads and rewrites. */
  class Header {
    var transactionId: nat

    constructor (transactionId: nat)
      ensures this.transactionId == transactionId
    {
      this.transactionId := transactionId;
    }
  }

  lemma BroadcastFrom(t: seq<Slot>, owner: seq<nat>, id: nat, i: nat)
    requires i <= |t| == |owner|
    ensures Broadcast(t, owner, id, i) ==
            if i == |t| then []
            else if t[i].fd > 0 then [Given(owner[i], t[i].fd, id)] + Broadcast(t, owner, id, i + 1)
            else Broadcast(t, owner, id, i + 1)
  {
  }

  class Proxy {
    const clients: array<Slot>
    ghost var owner: seq<nat>
    ghost var accepts: nat
    ghost var sent: seq<nat>
    ghost var given: seq<Given>

    ghost function Model(): State
      reads this, clients
    {
      State(clients[..], owner, accepts, sent, given)
    }

    ghost predicate Valid()
      reads this, clients
    {
      Shape(Model())
    }

    constructor ()
      ensures Valid() && fresh(clients)
      ensures Model() == Initial()
    {
      clients := new Slot[MAX_CLIENT](_ => Slot(0, 0));
      owner := seq(MAX_CLIENT, _ => 0);
      accepts, sent, given := 0, [], [];
      new;
      assert clients[..] == Cleared();
    }

    method HandleClientConnect(fd: int) returns (ret: int)
      requires Valid()
      modifies this`owner, this`accepts, clients
      ensures Valid()
      ensures Model() == Step(old(Model()), Accepted(fd))
      ensures ret == 0 <==> exists i: nat :: i < MAX_CLIENT && !Live(old(clients[..])[i])
      ensures ret == 0 || ret == -1
    {
      ghost var t := clients[..];
      var i := 0;
      while i < MAX_CLIENT
        invariant 0 <= i <= MAX_CLIENT
        invariant Valid() && Model() == old(Model())
        invariant forall k :: 0 <= k < i ==> Live(t[k])
        invariant First(t, Free(), 0) == First(t, Free(), i)
      {
        if clients[i].fd <= 0 {
          assert Free()(t[i]) && !Live(t[i]);
          clients[i] := Slot(fd, clients[i].idx);
          clients[i] := Slot(clients[i].fd, i + 1);
          owner, accepts := owner[i := accepts], accepts + 1;
          assert clients[..] == t[i := Slot(fd, i + 1)];
          return 0;
        }
        i := i + 1;
      }
      accepts := accepts + 1;
      return -1;
    }

    method HandleClientDisconnect(fd: int)
      requires Valid()
      modifies clients
      ensures Valid()
      ensures Model() == Step(old(Model()), Gone(fd))
    {
      ghost var t := clients[..];
      var i := 0;
      while i < MAX_CLIENT
        invariant 0 <= i <= MAX_CLIENT
        invariant Valid() && Model() == old(Model())
        invariant First(t, HeldBy(fd), 0) == First(t, HeldBy(fd), i)
      {
        if clients[i].fd == fd {
          assert HeldBy(fd)(t[i]);
          if clients[i].fd > 0 {
            clients[i] := clients[i].(fd := -1);
            assert clients[..] == t[i := t[i].(fd := -1)];
          }
          return;
        }
        i := i + 1;
      }
    }

    /** Rewrites the id in place and sends the message on; `ok` is false when nobody holds the descriptor. */
    method HandleClientRequest(fd: int, request: Header) returns (ok: bool)
      requires Valid()
      modifies this`sent, request
      ensures Valid()
      ensures Model() == Step(old(Model()), Asked(fd, old(request.transactionId)))
      ensures ok <==> |sent| == |old(sent)| + 1
      ensures request.transactionId == if ok then sent[|sent| - 1] else old(request.transactionId)
    {
      ghost var t := clients[..];
      var clientIdx := -1;
      var i := 0;
      while i < MAX_CLIENT
        invariant 0 <= i <= MAX_CLIENT
        invariant Valid() && Model() == old(Model())
        invariant First(t, HeldBy(fd), 0) == First(t, HeldBy(fd), i)
        invariant clientIdx == -1 && request.transactionId == old(request.transactionId)
      {
        if clients[i].fd == fd {
          assert HeldBy(fd)(t[i]);
          clientIdx := clients[i].idx;
          break;
        }
        i := i + 1;
      }
      if clientIdx == -1 {
        return false;
      }
      request.transactionId := Rewrite(request.transactionId, clientIdx);
      sent := sent + [request.transactionId];
      return true;
    }

    /** Writes the message to every live client. */
    method WriteToAll(response: Header)
      requires Valid()
      modifies this`given
      ensures Valid()
      ensures Model() == old(Model()).(given := old(given) + Broadcast(clients[..], owner, response.transactionId, 0))
    {
      hide Broadcast;
      ghost var t := clients[..];
      var i := 0;
      while i < MAX_CLIENT
        modifies this`given
        invariant 0 <= i <= MAX_CLIENT
        invariant given + Broadcast(t, owner, response.transactionId, i)
                  == old(given) + Broadcast(t, owner, response.transactionId, 0)
      {
        BroadcastFrom(t, owner, response.transactionId, i);
        if clients[i].fd > 0 {
          given := given + [Given(owner[i], clients[i].fd, response.transactionId)];
        }
        i := i + 1;
      }
      BroadcastFrom(t, owner, response.transactionId, MAX_CLIENT);
    }

    method HandleDeviceResponse(response: Header)
      requires Valid()
      modifies this`given, response
      ensures Valid()
      ensures Model() == Step(old(Model()), Answered(old(response.transactionId)))
    {
      ghost var t := clients[..];
      if response.transactionId == 0 {
        WriteToAll(response);
      } else {
        var clientIdx := response.transactionId / TID_LIMIT;
        var i := 0;
        while i < MAX_CLIENT
          invariant 0 <= i <= MAX_CLIENT
          invariant Valid() && Model() == old(Model())
          invariant response.transactionId == old(response.transactionId)
          invariant First(t, Addressed(clientIdx), 0) == First(t, Addressed(clientIdx), i)
        {
          if clients[i].idx == clientIdx && clients[i].fd > 0 {
            assert Addressed(clientIdx)(t[i]);
            response.transactionId := response.transactionId % TID_LIMIT;
            given := given + [Given(owner[i], clients[i].fd, response.transactionId)];
            break;
          }
          i := i + 1;
        }
      }
    }

    /** main's memset before the next proxy_loop. */
    method ClearClients()
      requires Valid()
      modifies clients
      ensures Valid()
      ensures Model() == Step(old(Model()), Restarted)
    {
      for i := 0 to MAX_CLIENT
        invariant Valid() && forall k :: 0 <= k < i ==> clients[k] == Slot(0, 0)
      {
        clients[i] := Slot(0, 0);
      }
      assert clients[..] == Cleared();
    }

    method Handle(e: Event)
      requires Valid()
      modifies this, clients
      ensures Valid()
      ensures Model() == Step(old(Model()), e)
    {
      match e
      case Accepted(fd) => var _ := HandleClientConnect(fd);
      case Gone(fd) => HandleClientDisconnect(fd);
      case Asked(fd, id) =>
        var request := new Header(id);
        var _ := HandleClientRequest(fd, request);
      case Answered(id) =>
        var response := new Header(id);
        HandleDeviceResponse(response);
      case Restarted => ClearClients();
    }

    /** A run of events: the table stays in order throughout. */
    method HandleAll(es: seq<Event>)
      requires Valid() && Inv(Model()) && OrderlyRun(Model(), es)
      modifies this, clients
      ensures Valid() && Inv(Model())
      ensures Model() == Run(old(Model()), es)
    {
      hide Step;
      var i := 0;
      while i < |es|
        invariant 0 <= i <= |es|
        invariant Valid() && Inv(Model()) && OrderlyRun(Model(), es[i..])
        invariant Run(Model(), es[i..]) == Run(old(Model()), es)
      {
        assert es[i..][1..] == es[i + 1..];
        StepKeepsInv(Model(), es[i]);
        Handle(es[i]);
        i := i + 1;
      }
    }
  }
}
