/** qmi_main's loop variables, updated in place as the program does (mobile/quectel-CM/src/main.c). The
    modem's answers and the clock arrive as arguments; each method is proved to take the step of
    RedialSpec. */
module Redial {
  import opened RedialSpec
  import opened Options

  class Loop {
    const config: Config
    var ipv4ConnectionStatus: nat
    var ipv6ConnectionStatus: nat
    var setupCallFail: nat
    var setupCallAllowTime: nat
    var link: int
    var psAttachedState: nat
    var loopbackState: bool
    var auth: int
    var alarm: Option<nat>
    var signals: seq<Signal>
    var quit: bool
    ghost var marks: seq<Mark>
    ghost var links: seq<LinkMark>
    ghost var dials: seq<(nat, nat)>
    /** The families requestDeactivateDefaultPDP was called for. */
    var released: seq<Family>

    ghost function Model(): State
      reads this
    {
      State(ipv4ConnectionStatus, ipv6ConnectionStatus, setupCallFail, setupCallAllowTime, link,
            psAttachedState, loopbackState, auth, alarm, signals, quit, marks, links, dials, released)
    }

    constructor (config: Config, now: nat, ps: nat, auth: int)
      ensures this.config == config
      ensures Model() == Initial(now, ps, auth)
    {
      this.config := config;
      ipv4ConnectionStatus, ipv6ConnectionStatus := UNKNOWN, UNKNOWN;
      setupCallFail, setupCallAllowTime := 0, now;
      link, psAttachedState, loopbackState := -1, ps, false;
      this.auth := auth;
      alarm, signals, quit := None, [CHECK], false;
      marks, links, dials, released := [], [], [], [];
    }

    predicate Disconnected()
      reads this
      ensures Disconnected() <==> Due(config, Model())
    {
      || (config.enable4 && ipv4ConnectionStatus == DISCONNECTED)
      || (config.enable6 && ipv6ConnectionStatus == DISCONNECTED)
    }

    method SendSigno(signo: Signal)
      modifies this`signals
      ensures Model() == old(Model()).(queue := old(signals) + [signo])
    {
      signals := signals + [signo];
    }

    method UsbnetLinkChange(up: int)
      modifies this`link, this`links
      ensures Model() == Link(old(Model()), up)
    {
      if link == up {
        return;
      }
      link := up;
      if up != 0 {
        links := links + [Started];
      } else {
        links := links + [Stopped];
      }
    }

    /** usbnet_link_state(0): clears the link state, and runs no DHCP command. */
    method ClearLinkState()
      modifies this`link, this`links
      ensures Model() == old(Model()).(link := 0, links := old(links) + [Reset(old(link) == 1)])
    {
      links := links + [Reset(link == 1)];
      link := 0;
    }

    method DialIpv4(d: Dial)
      modifies this`ipv4ConnectionStatus, this`auth
      ensures Model() == Dial4(config, old(Model()), d)
    {
      if config.enable4 && ipv4ConnectionStatus != CONNECTED {
        var qmierr := d.setup4;
        if qmierr > 0 && config.account {
          var oldAuth := auth;
          auth := if auth == 1 then 2 else 1;
          qmierr := d.retry4;
          if qmierr != 0 {
            auth := oldAuth;
          }
        }
        if qmierr == 0 {
          qmierr := d.address4;
          if qmierr == 0 {
            ipv4ConnectionStatus := CONNECTED;
          }
        }
      }
    }

    method DialIpv6(d: Dial)
      modifies this`ipv6ConnectionStatus
      ensures Model() == Dial6(config, old(Model()), d)
    {
      if config.enable6 && ipv6ConnectionStatus != CONNECTED {
        var qmierr := d.setup6;
        if qmierr == 0 {
          qmierr := d.address6;
          if qmierr == 0 {
            ipv6ConnectionStatus := CONNECTED;
          }
        }
      }
    }

    method SettleAfterDial(now: nat)
      modifies this`setupCallFail, this`setupCallAllowTime, this`alarm
      ensures Model() == Settle(config, old(Model()), now)
    {
      if Disconnected() {
        var allowTime := [5, 10, 20, 40, 60];
        if setupCallFail < |allowTime| {
          setupCallAllowTime := allowTime[setupCallFail];
        } else {
          setupCallAllowTime := 60;
        }
        setupCallFail := setupCallFail + 1;
        alarm := Some(now + 1000 * setupCallAllowTime);
        setupCallAllowTime := setupCallAllowTime * 1000 + now;
      } else if ipv4ConnectionStatus == CONNECTED || ipv6ConnectionStatus == CONNECTED {
        setupCallFail := 0;
        setupCallAllowTime := now;
      }
    }

    method OnStart(now: nat, d: Dial)
      modifies this
      ensures Model() == Start(config, old(Model()), now, d)
    {
      hide Dial4, Dial6, Settle, RoundFails, Up;
      if psAttachedState != 1 && !loopbackState {
        return;
      }
      if setupCallAllowTime > now {
        alarm := Some(now + 1000 * ((setupCallAllowTime - now + 999) / 1000));
        return;
      }
      ghost var failed := RoundFails(config, Model(), d);
      dials := dials + [(now, setupCallAllowTime)];
      DialIpv4(d);
      DialIpv6(d);
      marks := marks + [Round(now, failed, Due(config, Model()), Up(Model()))];
      SettleAfterDial(now);
    }

    /** requestQueryDataCall for both families, as far as the profile enables them. */
    method QueryDataCalls(q: Query)
      modifies this`ipv4ConnectionStatus, this`ipv6ConnectionStatus, this`released
      ensures Model() ==
        var v4 := Queried(config.enable4, old(ipv4ConnectionStatus), q.status4);
        old(Model()).(v4 := if config.enable4 && v4 == CONNECTED && !q.sameAddress then DISCONNECTED else v4,
                      v6 := Queried(config.enable6, old(ipv6ConnectionStatus), q.status6),
                      released := old(released) + if config.enable4 && v4 == CONNECTED && !q.sameAddress then [V4] else [])
    {
      if config.enable4 {
        if q.status4.Some? {
          ipv4ConnectionStatus := q.status4.value;
        }
        if CONNECTED == ipv4ConnectionStatus && !q.sameAddress {
          released := released + [V4];
          ipv4ConnectionStatus := DISCONNECTED;
        }
      } else {
        ipv4ConnectionStatus := DISCONNECTED;
      }
      if config.enable6 {
        if q.status6.Some? {
          ipv6ConnectionStatus := q.status6.value;
        }
      } else {
        ipv6ConnectionStatus := DISCONNECTED;
      }
    }

    method OnCheck(q: Query)
      modifies this
      ensures Model() == Check(config, old(Model()), q)
    {
      hide Link, Queried;
      QueryDataCalls(q);
      if ipv4ConnectionStatus == DISCONNECTED && ipv6ConnectionStatus == DISCONNECTED {
        UsbnetLinkChange(0);
      } else if ipv4ConnectionStatus == CONNECTED || ipv6ConnectionStatus == CONNECTED {
        UsbnetLinkChange(1);
      }
      if Disconnected() {
        SendSigno(START);
      }
    }

    method OnStop()
      modifies this
      ensures Model() == Stop(config, old(Model()))
    {
      if config.enable4 && ipv4ConnectionStatus == CONNECTED {
        released := released + [V4];
      }
      if config.enable6 && ipv6ConnectionStatus == CONNECTED {
        released := released + [V6];
      }
      UsbnetLinkChange(0);
      quit := true;
    }

    /** A signal read from the control socket: it disarms the alarm first. */
    method OnSignal(now: nat, d: Dial, q: Query)
      requires Enabled(Model(), Signalled(now, d, q))
      modifies this
      ensures Model() == Step(config, old(Model()), Signalled(now, d, q))
    {
      hide Start, Check, Stop;
      var signo := signals[0];
      signals := signals[1..];
      alarm := None;
      match signo
      case START => OnStart(now, d);
      case CHECK => OnCheck(q);
      case STOP => OnStop();
    }

    method OnNetworkChanged(now: nat, ps: nat)
      requires !quit
      modifies this
      ensures Model() == Step(config, old(Model()), NetworkChanged(now, ps))
    {
      psAttachedState := ps;
      if psAttachedState == 1 {
        if Disconnected() {
          SendSigno(START);
        }
      } else {
        setupCallAllowTime := now;
        marks := marks + [Detached];
      }
    }

    method OnDataCallChanged(now: nat)
      requires !quit
      modifies this
      ensures Model() == Step(config, old(Model()), DataCallChanged(now))
    {
      if ipv4ConnectionStatus == CONNECTED || ipv6ConnectionStatus == CONNECTED {
        setupCallAllowTime := now + 1000;
        marks := marks + [CallChanged];
      }
      SendSigno(CHECK);
    }

    method OnLoopback(on: bool)
      requires !quit
      modifies this
      ensures Model() == Step(config, old(Model()), LoopbackSet(on))
    {
      loopbackState := on;
      if on {
        SendSigno(START);
      }
    }

    /** What runs again after the jump back to the start of the program's loop. */
    method Restart(ps: nat)
      modifies this
      ensures Model() == old(Model()).(queue := [CHECK], ps := ps, loopback := false)
    {
      signals := [];
      loopbackState := false;
      psAttachedState := ps;
      SendSigno(CHECK);
    }

    /** `restart` is false when the device node disappears while the program waits. */
    method OnModemReset(restart: bool, ps: nat)
      requires !quit
      modifies this
      ensures Model() == Step(config, old(Model()), ModemReset(restart, ps))
    {
      ClearLinkState();
      if restart {
        Restart(ps);
      } else {
        UsbnetLinkChange(0);
        quit := true;
      }
    }

    method OnDeviceGone(restart: bool, ps: nat)
      requires !quit
      modifies this
      ensures Model() == Step(config, old(Model()), DeviceGone(restart, ps))
    {
      UsbnetLinkChange(0);
      if restart {
        Restart(ps);
      } else {
        quit := true;
      }
    }

    method Handle(e: Event)
      requires Enabled(Model(), e)
      modifies this
      ensures Model() == Step(config, old(Model()), e)
    {
      match e
      case Signalled(now, d, q) => OnSignal(now, d, q);
      case Quiet => SendSigno(CHECK);
      case AlarmRings => alarm := None; SendSigno(START);
      case NetworkChanged(now, ps) => OnNetworkChanged(now, ps);
      case DataCallChanged(now) => OnDataCallChanged(now);
      case LoopbackSet(on) => OnLoopback(on);
      case ModemReset(restart, ps) => OnModemReset(restart, ps);
      case DeviceGone(restart, ps) => OnDeviceGone(restart, ps);
      case Terminated => SendSigno(STOP);
    }

    /** The loop itself: a run of events takes the state to where RedialSpec.Run takes it. */
    method HandleAll(events: seq<Event>)
      requires Possible(config, Model(), events)
      modifies this
      ensures Model() == Run(config, old(Model()), events)
    {
      hide Step, Enabled;
      var i := 0;
      while i < |events|
        invariant 0 <= i <= |events|
        invariant Possible(config, Model(), events[i..])
        invariant Run(config, Model(), events[i..]) == Run(config, old(Model()), events)
      {
        assert events[i..][1..] == events[i + 1..];
        Handle(events[i]);
        i := i + 1;
      }
    }

    /** A whole life of the loop, from its first check on: the promises of FromStart hold of it. */
    method Live(events: seq<Event>)
      requires exists now, ps, auth :: Model() == Initial(now, ps, auth)
      requires Possible(config, Model(), events)
      modifies this
      ensures forall k :: 0 <= k < |dials| ==> dials[k].1 <= dials[k].0
      ensures Held(marks) && (AllBackOff(marks) ==> Spaced(marks)) && StartsAndStops(links)
      ensures DeterminedRun(config, old(Model()), events) ==> AllBackOff(marks)
      ensures NeverDropped(config, old(Model()), events) ==> NothingLost(config, Model())
    {
      ghost var now, ps, auth :| Model() == Initial(now, ps, auth);
      HandleAll(events);
      FromStart(config, now, ps, auth, events);
    }
  }
}
