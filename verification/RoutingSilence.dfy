/** What ports are never told and never heard: silence after a server change,
    ports that were superseded, and a run in which panel and embed part ways. */
module RoutingSilence {
  import opened Wrappers
  import opened Protocol
  import opened Registries
  import opened Routing
  import opened RoutingProofs
  import opened RoutingReference
  import opened RoutingTheorems

  // ---- Nobody is spoken to before saying who they are ----

  predicate Known(s: System, port: int) {
    port in s.fieldOrigin || (port in s.panelWindow && s.panelWindow[port].Some?)
  }

  predicate PortsKnown(s: System) {
    && (forall t :: t in s.fieldPorts ==> Known(s, s.fieldPorts[t].port))
    && (forall w :: w in s.panelPorts ==> Known(s, s.panelPorts[w]))
  }

  /** Only field ports and panels that have said hello were ever sent anything. */
  predicate Heard(s: System) {
    forall p :: p in s.sent ==> Known(s, p)
  }

  lemma PostKeepsHeard(s: System, port: int, m: PortMessage)
    requires Heard(s) && Known(s, port)
    ensures Heard(Post(s, port, m))
  {
    forall p | p in Post(s, port, m).sent ensures Known(Post(s, port, m), p) {
      assert p == port || p in s.sent;
    }
  }

  lemma ExecuteOneKeepsHeard(s: System, e: Effect)
    requires PortsKnown(s) && Heard(s)
    ensures Heard(ExecuteOne(s, e))
  {
    match e
    case SetBadge(_, _) =>
      var s' := ExecuteOne(s, e);
      assert forall p :: Known(s', p) == Known(s, p);
    case Send(to, windowId, tabId, m) =>
      if to.Panel? {
        if windowId in s.panelPorts { PostKeepsHeard(s, s.panelPorts[windowId], m); }
      } else if tabId.Some? && tabId.value in s.fieldPorts {
        var t := tabId.value;
        assert t in s.fieldPorts && Known(s, s.fieldPorts[t].port);
        PostKeepsHeard(s, s.fieldPorts[t].port, m);
      }
  }

  lemma {:induction false} ExecuteKeepsHeard(s: System, es: seq<Effect>)
    requires PortsKnown(s) && Heard(s)
    ensures Heard(Execute(s, es))
  {
    if es != [] {
      var s1 := Execute(s, es[..|es| - 1]);
      ExecuteKeepsHeard(s, es[..|es| - 1]);
      ExecuteFrames(s, es[..|es| - 1]);
      ExecuteOneKeepsHeard(s1, es[|es| - 1]);
    }
  }

  lemma ApplyKeepsHeard(s: System, r: (RegistryState, seq<Effect>))
    requires PortsKnown(s) && Heard(s)
    ensures Heard(Apply(s, r))
  {
    ExecuteKeepsHeard(s.(reg := r.0), r.1);
  }

  ghost predicate StepsWell(s: System, e: Event)
    requires Enabled(s, e)
  {
    Heard(Step(s, e)) && (IsHello(e) ==> Step(s, e).sent == s.sent)
  }

  lemma FieldMessageStepsWell(s: System, e: Event)
    requires PortsKnown(s) && Heard(s) && Enabled(s, e) && e.FieldMessage?
    ensures StepsWell(s, e)
  {
    var Origin(tabId, windowId) := s.fieldOrigin[e.port];
    if e.data.Some? && e.data.value.Relay? {
      var m := e.data.value.envelope;
      if m.FieldConnected? {
        ApplyKeepsHeard(s, ConnectField(s.reg, windowId, tabId, m.info));
      } else if m.TextChanged? {
        ApplyKeepsHeard(s, ChangeText(s.reg, windowId, tabId, m));
      } else {
        ApplyKeepsHeard(s, RelayFromHost(s.reg, windowId, tabId, m));
      }
    }
  }

  lemma FieldPortStepsWell(s: System, e: Event)
    requires Wired(s) && PortsKnown(s) && Heard(s) && Enabled(s, e) && (e.FieldConnect? || e.FieldDisconnect?)
    ensures StepsWell(s, e)
  {
    StepFrames(s, e);
    if e.FieldDisconnect? {
      var Origin(tabId, windowId) := s.fieldOrigin[e.port];
      var s1 := s.(fieldPorts := s.fieldPorts - {tabId});
      assert forall p :: Known(s1, p) == Known(s, p);
      ApplyKeepsHeard(s1, DropFieldPort(s1.reg, windowId, tabId));
    } else if e.sender.Some? && e.sender.value.tabId in s.fieldPorts {
      var tabId := e.sender.value.tabId;
      ApplyKeepsHeard(s, DropFieldPort(s.reg, s.fieldPorts[tabId].windowId, tabId));
    }
  }

  lemma PanelMessageStepsWell(s: System, e: Event)
    requires PortsKnown(s) && Heard(s) && Enabled(s, e) && e.PanelMessage?
    ensures StepsWell(s, e)
  {
    var home := s.panelWindow[e.port];
    if e.data.Some? && home.Some? {
      var m := e.data.value;
      if m.Relay? {
        ExecuteKeepsHeard(s, RelayFromEmbed(s.reg, home.value, m.envelope));
      } else if m.ctl.EmbedReady? {
        ApplyKeepsHeard(s, SetPanelReady(s.reg, home.value, m.ctl.ready));
      } else if m.ctl.Disconnect? {
        ExecuteKeepsHeard(s, RequestDisconnect(s.reg, home.value));
      }
    }
  }

  lemma StepKeepsHeard(s: System, e: Event)
    requires Wired(s) && Heard(s) && Enabled(s, e)
    ensures StepsWell(s, e)
  {
    match e
    case PanelMessage(_, _) => PanelMessageStepsWell(s, e);
    case ServerUrlChanged => ApplyKeepsHeard(s, DropAllFields(s.reg));
    case FieldConnect(_, _) => FieldPortStepsWell(s, e);
    case FieldMessage(_, _) => FieldMessageStepsWell(s, e);
    case FieldDisconnect(_) => FieldPortStepsWell(s, e);
    case _ =>
  }

  lemma {:induction false} RunKeepsHeard(events: seq<Event>)
    requires After(events).Some?
    ensures Heard(After(events).value.0)
  {
    if events != [] {
      RunKeepsHeard(events[..|events| - 1]);
      RunKeeps(events[..|events| - 1]);
      StepKeepsHeard(After(events[..|events| - 1]).value.0, events[|events| - 1]);
    }
  }

  // ---- Silence after a server change ----

  /** A window without a field gets one by exactly one kind of event: its tab's
      current port connects the field. */
  lemma OnlyConnectingFills(s: System, e: Event, windowId: int)
    requires Wired(s) && Enabled(s, e)
    ensures FieldOf(s, windowId).None? && FieldOf(Step(s, e), windowId).Some? ==> Connects(s, e) == Some(windowId)
    ensures Connects(s, e) == Some(windowId) ==> FieldOf(Step(s, e), windowId) == Some(e.data.value.envelope.info)
  {
    StepBecomes(s, e, windowId, 0);
  }

  /** Every event of the run can occur and none connects a field in the window. */
  predicate Unconnected(s: System, events: seq<Event>, windowId: int)
    decreases |events|
  {
    events == [] ||
    (&& Enabled(s, events[0])
     && Connects(s, events[0]) != Some(windowId)
     && Unconnected(Step(s, events[0]), events[1..], windowId))
  }

  function Final(s: System, events: seq<Event>, windowId: int): System
    requires Unconnected(s, events, windowId)
    decreases |events|
  {
    if events == [] then s else Final(Step(s, events[0]), events[1..], windowId)
  }

  predicate AtHome(s: System, port: int, windowId: int) {
    port in s.panelWindow && s.panelWindow[port] == Some(windowId)
  }

  /** What a port of the window had been sent by then. */
  function SentAtHome(s: System, port: int, windowId: int): seq<PortMessage> {
    if AtHome(s, port, windowId) then SentTo(s, port) else []
  }

  /** One event in an empty window that connects nothing there: it stays empty,
      and a port that comes to it by the event, or is there already, has heard
      nothing new. */
  lemma QuietHome(s: System, e: Event, windowId: int, port: int)
    requires Wired(s) && Heard(s) && Enabled(s, e)
    requires FieldOf(s, windowId).None? && Connects(s, e) != Some(windowId)
    ensures FieldOf(Step(s, e), windowId).None?
    ensures SentAtHome(Step(s, e), port, windowId) == SentAtHome(s, port, windowId)
  {
    OnlyConnectingFills(s, e, windowId);
    if AtHome(s, port, windowId) {
      QuietStep(s, e, windowId, port);
    } else {
      StepKeepsHeard(s, e);
      StepFrames(s, e);
      if AtHome(Step(s, e), port, windowId) {
        assert port !in s.fieldOrigin;
        assert !Known(s, port);
      }
    }
  }

  lemma {:induction false} QuietRun(s: System, h: History, events: seq<Event>, windowId: int, port: int)
    requires Inv(s, h) && Heard(s) && FieldOf(s, windowId).None? && Unconnected(s, events, windowId)
    ensures SentAtHome(Final(s, events, windowId), port, windowId) == SentAtHome(s, port, windowId)
    decreases |events|
  {
    if events != [] {
      QuietHome(s, events[0], windowId, port);
      StepKeeps(s, h, events[0]);
      StepKeepsHeard(s, events[0]);
      QuietRun(Step(s, events[0]), Observe(s, events[0], h), events[1..], windowId, port);
    }
  }

  /** After a server change, and until a field connects in the window anew, a
      panel port of the window has been sent nothing but what it was sent before
      the change: nothing at all when it opened or said hello only afterwards,
      as the panel that reloads because of the change does. */
  lemma ServerChangeSilences(before: seq<Event>, events: seq<Event>, windowId: int, port: int)
    requires After(before).Some?
    requires Unconnected(Step(After(before).value.0, ServerUrlChanged), events, windowId)
    ensures var s := After(before).value.0;
            var s' := Final(Step(s, ServerUrlChanged), events, windowId);
            AtHome(s', port, windowId) ==>
              SentTo(s', port) == if AtHome(s, port, windowId) then SentTo(s, port) else []
  {
    var (s, h) := After(before).value;
    RunKeeps(before);
    RunKeepsHeard(before);
    ServerChangeEffects(s);
    StepKeeps(s, h, ServerUrlChanged);
    StepKeepsHeard(s, ServerUrlChanged);
    QuietRun(Step(s, ServerUrlChanged), Observe(s, ServerUrlChanged, h), events, windowId, port);
  }

  // ---- Superseded ports ----

  predicate Superseded(s: System, port: int) {
    || (port in s.fieldOrigin && !CurrentField(s, s.fieldOrigin[port].tabId, port))
    || (port in s.panelWindow && s.panelWindow[port].Some? && !CurrentPanel(s, s.panelWindow[port].value, port))
  }

  predicate ComesFrom(e: Event, port: int) {
    match e
    case FieldMessage(p, _) => p == port
    case FieldDisconnect(p) => p == port
    case OpenPanelFailed(p) => p == port
    case PanelMessage(p, _) => p == port
    case PanelDisconnect(p) => p == port
    case _ => false
  }

  function WithoutPort(events: seq<Event>, port: int): seq<Event> {
    if events == [] then []
    else (if ComesFrom(events[0], port) then [] else [events[0]]) + WithoutPort(events[1..], port)
  }

  function RunFrom(s: System, events: seq<Event>): Option<System>
    decreases |events|
  {
    if events == [] then Some(s)
    else if Enabled(s, events[0]) then RunFrom(Step(s, events[0]), events[1..])
    else None
  }

  lemma StaysSuperseded(s: System, e: Event, port: int)
    requires Wired(s) && Enabled(s, e) && Superseded(s, port)
    ensures ComesFrom(e, port) ==> Step(s, e) == s
    ensures Superseded(Step(s, e), port)
  {
    if ComesFrom(e, port) {
      SupersededPortIsInert(s, port, if e.FieldMessage? || e.PanelMessage? then e.data else None);
    } else {
      StepFrames(s, e);
      assert Superseded(PortsAfter(s, e), port);
    }
  }

  lemma {:induction false} ForgottenFrom(s: System, h: History, events: seq<Event>, port: int)
    requires Inv(s, h) && Superseded(s, port) && RunFrom(s, events).Some?
    ensures RunFrom(s, WithoutPort(events, port)) == RunFrom(s, events)
    decreases |events|
  {
    if events != [] {
      var e, s' := events[0], Step(s, events[0]);
      StaysSuperseded(s, e, port);
      StepKeeps(s, h, e);
      ForgottenFrom(s', Observe(s, e, h), events[1..], port);
      var rest := WithoutPort(events[1..], port);
      if ComesFrom(e, port) {
        assert WithoutPort(events, port) == rest;
      } else {
        assert WithoutPort(events, port)[0] == e && WithoutPort(events, port)[1..] == rest;
      }
    }
  }

  /** A port once superseded is forgotten: every later run ends in the very
      state in which it ends without that port's messages, failures and
      disconnect. */
  lemma SupersededPortIsForgotten(before: seq<Event>, events: seq<Event>, port: int)
    requires After(before).Some? && Superseded(After(before).value.0, port)
    requires RunFrom(After(before).value.0, events).Some?
    ensures RunFrom(After(before).value.0, WithoutPort(events, port)) == RunFrom(After(before).value.0, events)
  {
    RunKeeps(before);
    ForgottenFrom(After(before).value.0, After(before).value.1, events, port);
  }

  // ---- Runs that separate the panel's copy from the embed's ----

  /** A field connects to a ready panel. */
  function ConnectingRun(f: FieldInfo): seq<Event> {
    [FieldConnect(0, Some(Origin(1, 2))),
     PanelConnect(3),
     PanelMessage(3, Some(Ctl(PanelHello(2)))),
     PanelMessage(3, Some(Ctl(EmbedReady(true)))),
     FieldMessage(0, Some(Relay(FieldConnected(f))))]
  }

  lemma AfterSnoc(events: seq<Event>, e: Event)
    requires After(events).Some? && Enabled(After(events).value.0, e)
    ensures var (s, h) := After(events).value;
            After(events + [e]) == Some((Step(s, e), Observe(s, e, h)))
  {
    assert (events + [e])[..|events|] == events;
  }

  /** Tab 1 has port 0 in window 2, whose panel has port 3. */
  predicate Opened(s: System) {
    && s.fieldPorts == map[1 := FieldPort(0, 2)] && s.fieldOrigin == map[0 := Origin(1, 2)]
    && s.panelPorts == map[2 := 3] && s.panelWindow == map[3 := Some(2)]
  }

  lemma OpenedRun(f: FieldInfo)
    ensures var run := ConnectingRun(f);
            && After(run[..3]).Some?
            && var s := After(run[..3]).value.0; Opened(s) && s.reg == RegistryState(map[], []) && s.sent == map[]
  {
    var run := ConnectingRun(f);
    assert run[..0] == [] && run[..1] == run[..0] + [run[0]];
    assert run[..2] == run[..1] + [run[1]] && run[..3] == run[..2] + [run[2]];
    AfterSnoc(run[..0], run[0]);
    AfterSnoc(run[..1], run[1]);
    AfterSnoc(run[..2], run[2]);
  }

  lemma ReadyRun(f: FieldInfo)
    ensures var run := ConnectingRun(f);
            && After(run[..4]).Some?
            && var (s, h) := After(run[..4]).value;
               && Opened(s) && WindowOf(s.reg, 2) == WindowState(None, true)
               && s.sent == map[] && Lookup(h.since, 2) == Some(0)
  {
    var run := ConnectingRun(f);
    OpenedRun(f);
    assert run[..4] == run[..3] + [run[3]];
    AfterSnoc(run[..3], run[3]);
  }

  /** Window 2 shows the field to its ready panel, which has heard these messages. */
  predicate Showing(state: (System, History), f: FieldInfo, heard: seq<PortMessage>) {
    var (s, h) := state;
    && Opened(s) && WindowOf(s.reg, 2) == WindowState(Some(FieldState(1, f)), true)
    && SentTo(s, 3) == heard && Lookup(h.since, 2) == Some(0)
  }

  lemma ConnectedRun(f: FieldInfo)
    ensures After(ConnectingRun(f)).Some?
    ensures Showing(After(ConnectingRun(f)).value, f, [Relay(FieldConnected(f))])
  {
    var run := ConnectingRun(f);
    ReadyRun(f);
    assert run == run[..4] + [run[4]];
    AfterSnoc(run[..4], run[4]);
    var s := After(run[..4]).value.0;
    assert ConnectField(s.reg, 2, 1, f).1 == [ToPanel(2, FieldConnected(f))];
    ExecuteSingle(s.(reg := ConnectField(s.reg, 2, 1, f).0), ToPanel(2, FieldConnected(f)));
  }

  lemma TextShown(events: seq<Event>, f: FieldInfo, heard: seq<PortMessage>, fieldId: string, text: string)
    requires After(events).Some? && Showing(After(events).value, f, heard)
    ensures var m := Relay(TextChanged(fieldId, text));
            && After(events + [FieldMessage(0, Some(m))]).Some?
            && Showing(After(events + [FieldMessage(0, Some(m))]).value, f.(text := text), heard + [m])
  {
    var s, m := After(events).value.0, TextChanged(fieldId, text);
    AfterSnoc(events, FieldMessage(0, Some(Relay(m))));
    ExecuteSingle(s.(reg := ChangeText(s.reg, 2, 1, m).0), ToPanel(2, m));
  }

  lemma EchoShown(events: seq<Event>, f: FieldInfo, heard: seq<PortMessage>, echo: Envelope)
    requires After(events).Some? && Showing(After(events).value, f, heard) && echo.ReplaceResult?
    ensures After(events + [FieldMessage(0, Some(Relay(echo)))]).Some?
    ensures Showing(After(events + [FieldMessage(0, Some(Relay(echo)))]).value, f, heard + [Relay(echo)])
  {
    AfterSnoc(events, FieldMessage(0, Some(Relay(echo))));
    ExecuteSingle(After(events).value.0, ToPanel(2, echo));
  }

  /** The copies that the registry, the panel's fold and the embed have. */
  ghost predicate Copies(state: (System, History), registry: FieldInfo, embed: FieldInfo) {
    var s := state.0;
    && FieldOf(s, 2) == Fold(SentTo(s, 3)) == Some(registry)
    && EmbedFold(SentTo(s, 3)) == Some(embed)
  }

  lemma FoldsOfOne(a: PortMessage)
    ensures Fold([a]) == FoldOne(None, a) && EmbedFold([a]) == EmbedOne(None, a)
  {
    assert [a][..0] == [];
    assert Fold([a][..0]) == None && EmbedFold([a][..0]) == None;
  }

  lemma FoldsOfTwo(a: PortMessage, b: PortMessage)
    ensures Fold([a, b]) == FoldOne(FoldOne(None, a), b)
    ensures EmbedFold([a, b]) == EmbedOne(EmbedOne(None, a), b)
  {
    assert [a, b][..1] == [a];
    FoldsOfOne(a);
  }

  lemma FoldsOfThree(a: PortMessage, b: PortMessage, c: PortMessage)
    ensures Fold([a, b] + [c]) == FoldOne(Fold([a, b]), c)
    ensures EmbedFold([a, b] + [c]) == EmbedOne(EmbedFold([a, b]), c)
  {
    assert ([a, b] + [c])[..2] == [a, b];
  }

  /** The worker delivers text for a field of the tab that has been replaced:
      the panel's fold and the registry take it, and the embed, which checks
      the field id, does not. */
  lemma UnscopedTextIsDelivered(f: FieldInfo, otherId: string, text: string)
    requires otherId != f.fieldId && text != f.text
    ensures var run := ConnectingRun(f) + [FieldMessage(0, Some(Relay(TextChanged(otherId, text))))];
            && After(run).Some?
            && Showing(After(run).value, f.(text := text), [Relay(FieldConnected(f)), Relay(TextChanged(otherId, text))])
            && Copies(After(run).value, f.(text := text), f)
  {
    ConnectedRun(f);
    TextShown(ConnectingRun(f), f, [Relay(FieldConnected(f))], otherId, text);
    FoldsOfTwo(Relay(FieldConnected(f)), Relay(TextChanged(otherId, text)));
  }

  /** What the extension's own host can do to a replacement request, granted or
      refused: its echo carries text not yet reported, and the embed runs ahead
      of the registry until the text change that follows brings both to the
      same field. */
  lemma EchoRunsAhead(f: FieldInfo, requestId: string, ok: bool, text: string)
    requires text != f.text
    ensures var echo := Relay(ReplaceResult(requestId, f.fieldId, ok, text));
            var run := ConnectingRun(f) + [FieldMessage(0, Some(echo))];
            && After(run).Some? && Showing(After(run).value, f, [Relay(FieldConnected(f)), echo])
            && Copies(After(run).value, f, f.(text := text))
    ensures var echo := Relay(ReplaceResult(requestId, f.fieldId, ok, text));
            var run := ConnectingRun(f) + [FieldMessage(0, Some(echo))]
                       + [FieldMessage(0, Some(Relay(TextChanged(f.fieldId, text))))];
            After(run).Some? && Copies(After(run).value, f.(text := text), f.(text := text))
  {
    var connected, echo := Relay(FieldConnected(f)), ReplaceResult(requestId, f.fieldId, ok, text);
    var run := ConnectingRun(f) + [FieldMessage(0, Some(Relay(echo)))];
    ConnectedRun(f);
    EchoShown(ConnectingRun(f), f, [connected], echo);
    assert [connected] + [Relay(echo)] == [connected, Relay(echo)];
    FoldsOfTwo(connected, Relay(echo));
    TextShown(run, f, [connected, Relay(echo)], f.fieldId, text);
    FoldsOfThree(connected, Relay(echo), Relay(TextChanged(f.fieldId, text)));
  }
}
