/** A panel and the service worker joined by the FIFO of the panel's port: the
    registry's readiness lags the relay's flag by exactly what is queued. */
module Readiness {
  import opened Wrappers
  import opened Protocol
  import opened Registries
  import opened Routing
  import opened RoutingProofs
  import Panel = PanelRelay

  datatype Joint = Joint(sys: System, history: History, relay: Panel.RelayState, queue: seq<PortMessage>)

  datatype Move =
    | PanelMoves(input: Panel.Input)
    | PanelSays(ctl: Control)      // the disconnect button and the keepalive
    | Deliver
    | Elsewhere(event: Event)      // anything but a message from this panel's port

  /** What the panel posts for each of its relay's callbacks. */
  function Posts(out: seq<Panel.Output>): seq<PortMessage> {
    if out == [] then []
    else
      var last := out[|out| - 1];
      Posts(out[..|out| - 1]) +
      (match last
       case ReadyChange(ready) => [Ctl(EmbedReady(ready))]
       case Forward(m) => [Relay(m)]
       case _ => [])
  }

  function Handle(j: Joint, e: Event): Joint
    requires Enabled(j.sys, e)
  {
    j.(sys := Step(j.sys, e), history := Observe(j.sys, e, j.history))
  }

  predicate Possible(j: Joint, m: Move, port: int) {
    match m
    case PanelMoves(input) => Panel.CanOccur(j.relay, input) && !input.Dispose?
    case PanelSays(ctl) => ctl.Disconnect? || ctl.Ping?
    case Deliver => j.queue != [] && Enabled(j.sys, PanelMessage(port, Some(j.queue[0])))
    case Elsewhere(e) => Enabled(j.sys, e) && !(e.PanelMessage? && e.port == port)
  }

  function Next(j: Joint, m: Move, port: int): Joint
    requires Possible(j, m, port)
  {
    match m
    case PanelMoves(input) =>
      var (r, out) := Panel.React(j.relay, input);
      j.(relay := r, queue := j.queue + Posts(out))
    case PanelSays(ctl) => j.(queue := j.queue + [Ctl(ctl)])
    case Deliver => Handle(j, PanelMessage(port, Some(j.queue[0]))).(queue := j.queue[1..])
    case Elsewhere(e) => Handle(j, e)
  }

  /** Readiness once every queued message has been handled. */
  function Drained(queue: seq<PortMessage>, ready: bool): bool {
    if queue == [] then ready
    else
      match queue[|queue| - 1]
      case Ctl(EmbedReady(r)) => r
      case _ => Drained(queue[..|queue| - 1], ready)
  }

  predicate NoHello(queue: seq<PortMessage>) {
    forall m <- queue :: m.Ctl? ==> !m.ctl.PanelHello?
  }

  /** The panel's hello is still queued, or has made `port` the window's panel. */
  ghost predicate Agreement(j: Joint, port: int, windowId: int) {
    && Inv(j.sys, j.history)
    && port in j.sys.panelWindow
    && (j.sys.panelWindow[port].None? ==>
          && j.queue != [] && j.queue[0] == Ctl(PanelHello(windowId))
          && NoHello(j.queue[1..])
          && Drained(j.queue[1..], false) == j.relay.ready)
    && (j.sys.panelWindow[port].Some? ==>
          && j.sys.panelWindow[port] == Some(windowId)
          && NoHello(j.queue)
          && (CurrentPanel(j.sys, windowId, port) ==>
                Drained(j.queue, Ready(j.sys, windowId)) == j.relay.ready))
  }

  lemma {:induction false} DrainedAppend(queue: seq<PortMessage>, more: seq<PortMessage>, ready: bool)
    ensures Drained(queue + more, ready) == Drained(more, Drained(queue, ready))
  {
    if more == [] {
      assert queue + more == queue;
    } else {
      DrainedAppend(queue, more[..|more| - 1], ready);
      assert (queue + more)[..|queue + more| - 1] == queue + more[..|more| - 1];
    }
  }

  lemma DrainedHead(queue: seq<PortMessage>, ready: bool)
    requires queue != []
    ensures Drained(queue, ready) == Drained(queue[1..], Drained([queue[0]], ready))
  {
    assert queue == [queue[0]] + queue[1..];
    DrainedAppend([queue[0]], queue[1..], ready);
  }

  function PostOf(o: Panel.Output): seq<PortMessage> {
    match o
    case ReadyChange(ready) => [Ctl(EmbedReady(ready))]
    case Forward(m) => [Relay(m)]
    case _ => []
  }

  lemma PostsOfTwo(o1: Panel.Output, o2: Panel.Output)
    ensures Posts([]) == [] && Posts([o1]) == PostOf(o1) && Posts([o1, o2]) == PostOf(o1) + PostOf(o2)
  {
    assert [o1][..0] == [] && [o1, o2][..1] == [o1];
  }

  /** What the relay posts: its new flag whenever that changes, and nothing
      else that bears on readiness. */
  lemma ReactionPosts(r: Panel.RelayState, i: Panel.Input)
    requires !i.Dispose?
    ensures var (r', out) := Panel.React(r, i);
            if r'.ready != r.ready then Posts(out) == [Ctl(EmbedReady(r'.ready))]
            else Posts(out) == [] || (|Posts(out)| == 1 && Posts(out)[0].Relay?)
  {
    var out := Panel.React(r, i).1;
    PostsOfTwo(if |out| > 0 then out[0] else Panel.Hello, if |out| > 1 then out[1] else Panel.Hello);
    assert |out| == 0 || out == [out[0]] || out == [out[0], out[1]];
  }

  /** So it drains to that flag. */
  lemma ReactionDrains(r: Panel.RelayState, i: Panel.Input)
    requires !i.Dispose?
    ensures var (r', out) := Panel.React(r, i);
            Drained(Posts(out), r.ready) == r'.ready && NoHello(Posts(out))
  {
    ReactionPosts(r, i);
    var posts := Posts(Panel.React(r, i).1);
    if posts != [] {
      assert posts == [posts[0]];
    }
  }

  // ---- The service worker's side ----

  lemma DeliveryReadies(s: System, port: int, windowId: int, m: PortMessage)
    requires Wired(s) && port in s.panelWindow && s.panelWindow[port] == Some(windowId)
    requires CurrentPanel(s, windowId, port) && !(m.Ctl? && m.ctl.PanelHello?)
    ensures var s' := Step(s, PanelMessage(port, Some(m)));
            && Ready(s', windowId) == Drained([m], Ready(s, windowId))
            && s'.panelWindow == s.panelWindow
  {
    if m.Relay? {
      EmbedRelayMoves(s, windowId, m.envelope);
    } else if m.ctl.EmbedReady? {
      PanelReadyMoves(s, windowId, m.ctl.ready);
    } else if m.ctl.Disconnect? && FieldOf(s, windowId).Some? {
      var effect := RequestDisconnect(s.reg, windowId)[0];
      MovesNothing(s, windowId);
      MovesSendField(s, s, Delta(windowId, WindowOf(s.reg, windowId), None, None), true, effect);
      ExecuteSingle(s, effect);
    }
  }

  predicate SameReadiness(s: System, s': System, windowId: int) {
    Ready(s', windowId) == Ready(s, windowId) && s'.panelWindow == s.panelWindow && s'.panelPorts == s.panelPorts
  }

  lemma FieldConnectKeepsReadiness(s: System, e: Event, windowId: int)
    requires Wired(s) && Enabled(s, e) && e.FieldConnect?
    ensures SameReadiness(s, Step(s, e), windowId)
  {
    if e.sender.Some? && e.sender.value.tabId in s.fieldPorts {
      GoneKeepsReadiness(s, s.fieldPorts[e.sender.value.tabId].windowId, e.sender.value.tabId, windowId);
    }
  }

  lemma FieldMessageKeepsReadiness(s: System, e: Event, windowId: int)
    requires Wired(s) && Enabled(s, e) && e.FieldMessage?
    ensures SameReadiness(s, Step(s, e), windowId)
  {
    var Origin(t, w) := s.fieldOrigin[e.port];
    if CurrentField(s, t, e.port) && e.data.Some? && e.data.value.Relay? {
      var m := e.data.value.envelope;
      if m.FieldConnected? {
        ConnectMoves(s, w, t, m.info);
      } else if Owns(WindowOf(s.reg, w), t) {
        if m.TextChanged? { ChangeTextMoves(s, w, t, m); } else { HostRelayMoves(s, w, t, m); }
      }
    }
  }

  lemma FieldDisconnectKeepsReadiness(s: System, e: Event, windowId: int)
    requires Wired(s) && Enabled(s, e) && e.FieldDisconnect?
    ensures SameReadiness(s, Step(s, e), windowId)
  {
    var Origin(t, w) := s.fieldOrigin[e.port];
    GoneKeepsReadiness(s, w, t, windowId);
    DropCommutes(s, w, t);
  }

  /** Field events never touch readiness. */
  lemma FieldEventsKeepReadiness(s: System, e: Event, windowId: int)
    requires Wired(s) && Enabled(s, e)
    requires e.FieldConnect? || e.FieldMessage? || e.FieldDisconnect?
    ensures SameReadiness(s, Step(s, e), windowId)
  {
    if e.FieldConnect? {
      FieldConnectKeepsReadiness(s, e, windowId);
    } else if e.FieldMessage? {
      FieldMessageKeepsReadiness(s, e, windowId);
    } else {
      FieldDisconnectKeepsReadiness(s, e, windowId);
    }
  }

  lemma GoneKeepsReadiness(s: System, w: int, t: int, windowId: int)
    requires Wired(s)
    ensures var s' := Apply(s, DropFieldPort(s.reg, w, t));
            Ready(s', windowId) == Ready(s, windowId) && s'.panelWindow == s.panelWindow && s'.panelPorts == s.panelPorts
  {
    if Owns(WindowOf(s.reg, w), t) {
      FieldGoneMoves(s, w, t);
    }
  }

  /** A message on another panel's port leaves this window alone, or takes it over. */
  lemma OtherPanelKeepsReadiness(s: System, e: Event, port: int, windowId: int)
    requires Wired(s) && Enabled(s, e) && e.PanelMessage? && e.port != port
    requires CurrentPanel(s, windowId, port)
    ensures var s' := Step(s, e);
            !CurrentPanel(s', windowId, port) || Ready(s', windowId) == Ready(s, windowId)
  {
    var home := s.panelWindow[e.port];
    if e.data.Some? && home.Some? && CurrentPanel(s, home.value, e.port) && !(e.data.value.Ctl? && e.data.value.ctl.PanelHello?) {
      var m := e.data.value;
      if m.Relay? {
        EmbedRelayMoves(s, home.value, m.envelope);
      } else if m.ctl.EmbedReady? {
        PanelReadyMoves(s, home.value, m.ctl.ready);
      } else if m.ctl.Disconnect? && FieldOf(s, home.value).Some? {
        var effect := RequestDisconnect(s.reg, home.value)[0];
        MovesNothing(s, home.value);
        MovesSendField(s, s, Delta(home.value, WindowOf(s.reg, home.value), None, None), true, effect);
        ExecuteSingle(s, effect);
      }
    }
  }

  lemma OthersKeepReadiness(s: System, e: Event, port: int, windowId: int)
    requires Wired(s) && Enabled(s, e) && !(e.PanelMessage? && e.port == port)
    requires CurrentPanel(s, windowId, port)
    ensures var s' := Step(s, e);
            !CurrentPanel(s', windowId, port) || Ready(s', windowId) == Ready(s, windowId)
  {
    if e.FieldConnect? || e.FieldMessage? || e.FieldDisconnect? {
      FieldEventsKeepReadiness(s, e, windowId);
    } else if e.PanelMessage? {
      OtherPanelKeepsReadiness(s, e, port, windowId);
    } else if e.ServerUrlChanged? {
      ServerChangeEffects(s);
    }
  }

  lemma OthersKeepHome(s: System, e: Event, port: int)
    requires Wired(s) && Enabled(s, e) && !(e.PanelMessage? && e.port == port) && port in s.panelWindow
    ensures var s' := Step(s, e);
            && port in s'.panelWindow && s'.panelWindow[port] == s.panelWindow[port]
            && forall w :: CurrentPanel(s', w, port) ==> CurrentPanel(s, w, port)
  {
    StepFrames(s, e);
  }

  // ---- Agreement over every run ----

  /** Posting more that drains from the old flag to the new one. */
  lemma PostingKeepsAgreement(j: Joint, j': Joint, more: seq<PortMessage>, port: int, windowId: int)
    requires Agreement(j, port, windowId) && NoHello(more)
    requires j' == j.(relay := j'.relay, queue := j.queue + more)
    requires Drained(more, j.relay.ready) == j'.relay.ready
    ensures Agreement(j', port, windowId)
  {
    if j.sys.panelWindow[port].None? {
      assert j'.queue[1..] == j.queue[1..] + more;
      DrainedAppend(j.queue[1..], more, false);
    } else {
      DrainedAppend(j.queue, more, Ready(j.sys, windowId));
    }
  }

  lemma PanelKeepsAgreement(j: Joint, m: Move, port: int, windowId: int)
    requires Agreement(j, port, windowId) && Possible(j, m, port) && (m.PanelMoves? || m.PanelSays?)
    ensures Agreement(Next(j, m, port), port, windowId)
  {
    if m.PanelMoves? {
      ReactionDrains(j.relay, m.input);
      PostingKeepsAgreement(j, Next(j, m, port), Posts(Panel.React(j.relay, m.input).1), port, windowId);
    } else {
      PostingKeepsAgreement(j, Next(j, m, port), [Ctl(m.ctl)], port, windowId);
    }
  }

  lemma DeliveryKeepsAgreement(j: Joint, port: int, windowId: int)
    requires Agreement(j, port, windowId) && Possible(j, Deliver, port)
    ensures Agreement(Next(j, Deliver, port), port, windowId)
  {
    var s, m := j.sys, j.queue[0];
    StepKeeps(s, j.history, PanelMessage(port, Some(m)));
    if s.panelWindow[port].None? {
    } else {
      assert m in j.queue;
      if CurrentPanel(s, windowId, port) {
        DeliveryReadies(s, port, windowId, m);
        DrainedHead(j.queue, Ready(s, windowId));
      }
    }
  }

  lemma MoveKeepsAgreement(j: Joint, m: Move, port: int, windowId: int)
    requires Agreement(j, port, windowId) && Possible(j, m, port)
    ensures Agreement(Next(j, m, port), port, windowId)
  {
    match m
    case Deliver => DeliveryKeepsAgreement(j, port, windowId);
    case Elsewhere(e) =>
      StepKeeps(j.sys, j.history, e);
      OthersKeepHome(j.sys, e, port);
      if CurrentPanel(j.sys, windowId, port) {
        OthersKeepReadiness(j.sys, e, port, windowId);
      }
    case _ => PanelKeepsAgreement(j, m, port, windowId);
  }

  function RunFrom(j: Joint, moves: seq<Move>, port: int): Option<Joint> {
    if moves == [] then Some(j)
    else
      match RunFrom(j, moves[..|moves| - 1], port)
      case None => None
      case Some(j') =>
        if Possible(j', moves[|moves| - 1], port) then Some(Next(j', moves[|moves| - 1], port)) else None
  }

  lemma {:induction false} RunKeepsAgreement(j: Joint, moves: seq<Move>, port: int, windowId: int)
    requires Agreement(j, port, windowId) && RunFrom(j, moves, port).Some?
    ensures Agreement(RunFrom(j, moves, port).value, port, windowId)
  {
    if moves != [] {
      RunKeepsAgreement(j, moves[..|moves| - 1], port, windowId);
      MoveKeepsAgreement(RunFrom(j, moves[..|moves| - 1], port).value, moves[|moves| - 1], port, windowId);
    }
  }

  /** No change of readiness is on its way. */
  predicate NoReadyQueued(queue: seq<PortMessage>) {
    forall m <- queue :: !(m.Ctl? && m.ctl.EmbedReady?)
  }

  lemma {:induction false} NothingDrains(queue: seq<PortMessage>, ready: bool)
    requires NoReadyQueued(queue)
    ensures Drained(queue, ready) == ready
  {
    if queue != [] {
      assert queue[|queue| - 1] in queue;
      NothingDrains(queue[..|queue| - 1], ready);
    }
  }

  /** A panel connects to any reachable service worker, says hello first, and
      then anything happens: whenever it is the window's panel and no change of
      readiness is queued, the registry calls the panel ready exactly when its
      relay does. */
  lemma ReadinessAgrees(before: seq<Event>, moves: seq<Move>, port: int, windowId: int)
    requires After(before).Some?
    requires var (s, h) := After(before).value;
             && port in s.panelWindow && s.panelWindow[port].None?
             && RunFrom(Joint(s, h, Panel.FRESH, [Ctl(PanelHello(windowId))]), moves, port).Some?
    ensures var (s, h) := After(before).value;
            var j := RunFrom(Joint(s, h, Panel.FRESH, [Ctl(PanelHello(windowId))]), moves, port).value;
            NoReadyQueued(j.queue) && CurrentPanel(j.sys, windowId, port) ==>
              Ready(j.sys, windowId) == j.relay.ready
  {
    var (s, h) := After(before).value;
    var j := Joint(s, h, Panel.FRESH, [Ctl(PanelHello(windowId))]);
    RunKeeps(before);
    assert j.queue[1..] == [];
    RunKeepsAgreement(j, moves, port, windowId);
    var end := RunFrom(j, moves, port).value;
    if NoReadyQueued(end.queue) {
      NothingDrains(end.queue, Ready(end.sys, windowId));
    }
  }
}
