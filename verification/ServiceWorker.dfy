/** The extension's service worker: the two port maps, the registry, and the
    event handlers that connect them, as one transition system. Ports are
    numbers; every message posted to a port and every badge set is recorded. */
module Routing {
  import opened Wrappers
  import opened Protocol
  import opened Registries

  datatype FieldPort = FieldPort(port: int, windowId: int)
  // The variables a field port's listeners close over.
  datatype Origin = Origin(tabId: int, windowId: int)

  datatype System = System(
    reg: RegistryState,
    fieldPorts: map<int, FieldPort>,        // by tab
    panelPorts: map<int, int>,              // by window
    fieldOrigin: map<int, Origin>,          // by field port
    panelWindow: map<int, Option<int>>,     // by panel port
    badges: map<int, Badge>,                // by tab
    sent: map<int, seq<PortMessage>>)       // by port

  const INITIAL := System(RegistryState(map[], []), map[], map[], map[], map[], map[], map[])

  datatype Event =
    | FieldConnect(port: int, sender: Option<Origin>)
    | FieldMessage(port: int, data: Option<PortMessage>)   // None: does not parse
    | FieldDisconnect(port: int)
    | OpenPanelFailed(port: int)
    | PanelConnect(port: int)
    | PanelMessage(port: int, data: Option<PortMessage>)
    | PanelDisconnect(port: int)
    | ServerUrlChanged

  function SentTo(s: System, port: int): seq<PortMessage> {
    if port in s.sent then s.sent[port] else []
  }

  function BadgeOf(s: System, tabId: int): Badge {
    if tabId in s.badges then s.badges[tabId] else Blank
  }

  predicate CurrentField(s: System, tabId: int, port: int) {
    tabId in s.fieldPorts && s.fieldPorts[tabId].port == port
  }

  predicate CurrentPanel(s: System, windowId: int, port: int) {
    windowId in s.panelPorts && s.panelPorts[windowId] == port
  }

  function Post(s: System, port: int, m: PortMessage): System {
    s.(sent := s.sent[port := SentTo(s, port) + [m]])
  }

  function ExecuteOne(s: System, e: Effect): System {
    match e
    case SetBadge(tabId, text) => s.(badges := s.badges[tabId := text])
    case Send(to, windowId, tabId, message) =>
      if to.Panel? then
        (if windowId in s.panelPorts then Post(s, s.panelPorts[windowId], message) else s)
      else
        (if tabId.Some? && tabId.value in s.fieldPorts
         then Post(s, s.fieldPorts[tabId.value].port, message) else s)
  }

  function Execute(s: System, effects: seq<Effect>): System {
    if effects == [] then s
    else ExecuteOne(Execute(s, effects[..|effects| - 1]), effects[|effects| - 1])
  }

  function Apply(s: System, result: (RegistryState, seq<Effect>)): System {
    Execute(s.(reg := result.0), result.1)
  }

  function OnFieldConnect(s: System, port: int, sender: Option<Origin>): System {
    if sender.None? then s
    else
      var Origin(tabId, windowId) := sender.value;
      var s1 := if tabId in s.fieldPorts && s.fieldPorts[tabId].port != port
                then Apply(s, DropFieldPort(s.reg, s.fieldPorts[tabId].windowId, tabId))
                else s;
      s1.(fieldPorts := s1.fieldPorts[tabId := FieldPort(port, windowId)],
          fieldOrigin := s1.fieldOrigin[port := sender.value])
  }

  function OnFieldMessage(s: System, port: int, data: Option<PortMessage>): System
    requires port in s.fieldOrigin
  {
    var Origin(tabId, windowId) := s.fieldOrigin[port];
    if !CurrentField(s, tabId, port) then s
    else
      match data
      case None => s
      case Some(Ctl(_)) => s
      case Some(Relay(m)) =>
        if m.FieldConnected? then Apply(s, ConnectField(s.reg, windowId, tabId, m.info))
        else if m.TextChanged? then Apply(s, ChangeText(s.reg, windowId, tabId, m))
        else Apply(s, RelayFromHost(s.reg, windowId, tabId, m))
  }

  function OnFieldDisconnect(s: System, port: int): System
    requires port in s.fieldOrigin
  {
    var Origin(tabId, windowId) := s.fieldOrigin[port];
    if !CurrentField(s, tabId, port) then s
    else
      var s1 := s.(fieldPorts := s.fieldPorts - {tabId});
      Apply(s1, DropFieldPort(s1.reg, windowId, tabId))
  }

  function OnOpenPanelFailed(s: System, port: int): System
    requires port in s.fieldOrigin
  {
    if CurrentField(s, s.fieldOrigin[port].tabId, port)
    then Post(s, port, Ctl(StatusControl("error", 0, None)))
    else s
  }

  function OnPanelHello(s: System, port: int, windowId: int): System {
    var s1 := if windowId in s.panelPorts && s.panelPorts[windowId] != port
              then s.(reg := SetPanelReady(s.reg, windowId, false).0)
              else s;
    s1.(panelWindow := s1.panelWindow[port := Some(windowId)],
        panelPorts := s1.panelPorts[windowId := port])
  }

  function OnPanelMessage(s: System, port: int, data: Option<PortMessage>): System
    requires port in s.panelWindow
  {
    match data
    case None => s
    case Some(Ctl(PanelHello(windowId))) => OnPanelHello(s, port, windowId)
    case Some(m) =>
      var home := s.panelWindow[port];
      if home.None? || !CurrentPanel(s, home.value, port) then s
      else
        match m
        case Ctl(EmbedReady(ready)) => Apply(s, SetPanelReady(s.reg, home.value, ready))
        case Ctl(Disconnect) => Execute(s, RequestDisconnect(s.reg, home.value))
        case Ctl(_) => s
        case Relay(envelope) => Execute(s, RelayFromEmbed(s.reg, home.value, envelope))
  }

  function OnPanelDisconnect(s: System, port: int): System
    requires port in s.panelWindow
  {
    var home := s.panelWindow[port];
    if home.None? || !CurrentPanel(s, home.value, port) then s
    else s.(panelPorts := s.panelPorts - {home.value}, reg := DropPanelPort(s.reg, home.value))
  }

  /** Ports are fresh when they connect; a panel says hello once per port. Any
      port that ever connected may still deliver messages or its disconnect. */
  predicate Enabled(s: System, e: Event) {
    match e
    case FieldConnect(port, _) => port !in s.fieldOrigin && port !in s.panelWindow
    case PanelConnect(port) => port !in s.fieldOrigin && port !in s.panelWindow
    case FieldMessage(port, _) => port in s.fieldOrigin
    case FieldDisconnect(port) => port in s.fieldOrigin
    case OpenPanelFailed(port) => port in s.fieldOrigin
    case PanelMessage(port, data) =>
      && port in s.panelWindow
      && (data.Some? && data.value.Ctl? && data.value.ctl.PanelHello? ==> s.panelWindow[port].None?)
    case PanelDisconnect(port) => port in s.panelWindow
    case ServerUrlChanged => true
  }

  function Step(s: System, e: Event): System
    requires Enabled(s, e)
  {
    match e
    case FieldConnect(port, sender) => OnFieldConnect(s, port, sender)
    case FieldMessage(port, data) => OnFieldMessage(s, port, data)
    case FieldDisconnect(port) => OnFieldDisconnect(s, port)
    case OpenPanelFailed(port) => OnOpenPanelFailed(s, port)
    case PanelConnect(port) => s.(panelWindow := s.panelWindow[port := None])
    case PanelMessage(port, data) => OnPanelMessage(s, port, data)
    case PanelDisconnect(port) => OnPanelDisconnect(s, port)
    case ServerUrlChanged => Apply(s, DropAllFields(s.reg))
  }
}

/** The same handlers as the source writes them: module-level maps and the
    shared registry changed in place, effects executed one at a time. */
module ServiceWorkers {
  import opened Wrappers
  import opened Protocol
  import opened Registries
  import opened Routing

  class ServiceWorker {
    const registry: Registry
    var fieldPorts: map<int, FieldPort>
    var panelPorts: map<int, int>
    var fieldOrigin: map<int, Origin>
    var panelWindow: map<int, Option<int>>
    // What the browser has been asked to do so far.
    ghost var badges: map<int, Badge>
    ghost var sent: map<int, seq<PortMessage>>

    ghost predicate Valid()
      reads this, registry
    {
      registry.Valid()
    }

    ghost function State(): System
      reads this, registry
    {
      System(registry.State(), fieldPorts, panelPorts, fieldOrigin, panelWindow, badges, sent)
    }

    constructor ()
      ensures Valid() && State() == INITIAL && fresh(registry)
    {
      registry := new Registry();
      fieldPorts, panelPorts, fieldOrigin, panelWindow := map[], map[], map[], map[];
      badges, sent := map[], map[];
    }

    method PostSafely(port: int, m: PortMessage)
      modifies this`sent
      ensures State() == Post(old(State()), port, m)
    {
      sent := sent[port := SentTo(State(), port) + [m]];
    }

    method ExecuteEffects(effects: seq<Effect>)
      modifies this`sent, this`badges
      ensures State() == Execute(old(State()), effects)
    {
      for i := 0 to |effects|
        invariant State() == Execute(old(State()), effects[..i])
      {
        var effect := effects[i];
        assert effects[..i + 1][..i] == effects[..i];
        if effect.SetBadge? {
          badges := badges[effect.badgeTab := effect.text];
          continue;
        }
        if effect.to.Panel? {
          if effect.windowId in panelPorts {
            PostSafely(panelPorts[effect.windowId], effect.message);
          }
        } else if effect.tabId.Some? && effect.tabId.value in fieldPorts {
          PostSafely(fieldPorts[effect.tabId.value].port, effect.message);
        }
      }
      assert effects[..|effects|] == effects;
    }

    method OnFieldConnect(port: int, sender: Option<Origin>)
      requires Valid()
      modifies this, registry
      ensures Valid() && State() == Routing.OnFieldConnect(old(State()), port, sender)
    {
      if sender.None? { return; }
      var tabId, windowId := sender.value.tabId, sender.value.windowId;
      if tabId in fieldPorts && fieldPorts[tabId].port != port {
        var effects := registry.FieldPortGone(fieldPorts[tabId].windowId, tabId);
        ExecuteEffects(effects);
      }
      fieldPorts := fieldPorts[tabId := FieldPort(port, windowId)];
      fieldOrigin := fieldOrigin[port := sender.value];
    }

    method HandleFieldMessage(port: int, data: Option<PortMessage>)
      requires Valid() && port in fieldOrigin
      modifies this, registry
      ensures Valid() && State() == OnFieldMessage(old(State()), port, data)
    {
      var tabId, windowId := fieldOrigin[port].tabId, fieldOrigin[port].windowId;
      if tabId !in fieldPorts || fieldPorts[tabId].port != port { return; }
      if data.None? { return; }
      if data.value.Ctl? { return; }   // openPanel and ping touch no routing state
      var m := data.value.envelope;
      var effects;
      if m.FieldConnected? {
        effects := registry.FieldConnected(windowId, tabId, m.info);
      } else if m.TextChanged? {
        effects := registry.TextChanged(windowId, tabId, m);
      } else {
        effects := registry.HostRelay(windowId, tabId, m);
      }
      ExecuteEffects(effects);
    }

    method OnFieldDisconnect(port: int)
      requires Valid() && port in fieldOrigin
      modifies this, registry
      ensures Valid() && State() == Routing.OnFieldDisconnect(old(State()), port)
    {
      var tabId, windowId := fieldOrigin[port].tabId, fieldOrigin[port].windowId;
      if tabId !in fieldPorts || fieldPorts[tabId].port != port { return; }
      fieldPorts := fieldPorts - {tabId};
      var effects := registry.FieldPortGone(windowId, tabId);
      ExecuteEffects(effects);
    }

    method OnOpenPanelFailed(port: int)
      requires Valid() && port in fieldOrigin
      modifies this
      ensures Valid() && State() == Routing.OnOpenPanelFailed(old(State()), port)
    {
      var tabId := fieldOrigin[port].tabId;
      if tabId in fieldPorts && fieldPorts[tabId].port == port {
        PostSafely(port, Ctl(StatusControl("error", 0, None)));
      }
    }

    method OnPanelConnect(port: int)
      requires Valid()
      modifies this
      ensures Valid()
      ensures State() == old(State()).(panelWindow := old(panelWindow)[port := None])
    {
      panelWindow := panelWindow[port := None];
    }

    method HandlePanelMessage(port: int, data: Option<PortMessage>)
      requires Valid() && port in panelWindow
      modifies this, registry
      ensures Valid() && State() == OnPanelMessage(old(State()), port, data)
    {
      if data.None? { return; }
      var m := data.value;
      if m.Ctl? && m.ctl.PanelHello? {
        var windowId := m.ctl.windowId;
        if windowId in panelPorts && panelPorts[windowId] != port {
          var _ := registry.PanelReady(windowId, false);
        }
        panelWindow := panelWindow[port := Some(windowId)];
        panelPorts := panelPorts[windowId := port];
        return;
      }
      var home := panelWindow[port];
      if home.None? || home.value !in panelPorts || panelPorts[home.value] != port { return; }
      var effects := [];
      if m.Relay? {
        effects := registry.EmbedRelay(home.value, m.envelope);
      } else if m.ctl.EmbedReady? {
        effects := registry.PanelReady(home.value, m.ctl.ready);
      } else if m.ctl.Disconnect? {
        effects := registry.DisconnectRequested(home.value);
      }
      ExecuteEffects(effects);
    }

    method OnPanelDisconnect(port: int)
      requires Valid() && port in panelWindow
      modifies this, registry
      ensures Valid() && State() == Routing.OnPanelDisconnect(old(State()), port)
    {
      var home := panelWindow[port];
      if home.None? { return; }
      if home.value !in panelPorts || panelPorts[home.value] != port { return; }
      panelPorts := panelPorts - {home.value};
      registry.PanelPortGone(home.value);
    }

    method OnServerUrlChanged()
      requires Valid()
      modifies this, registry
      ensures Valid() && State() == Apply(old(State()), DropAllFields(old(State()).reg))
    {
      var effects := registry.ServerChanged();
      ExecuteEffects(effects);
    }

    /** Every event the browser can deliver takes the worker one Step. */
    method Dispatch(e: Event)
      requires Valid() && Enabled(State(), e)
      modifies this, registry
      ensures Valid() && State() == Step(old(State()), e)
    {
      match e
      case FieldConnect(port, sender) => OnFieldConnect(port, sender);
      case FieldMessage(port, data) => HandleFieldMessage(port, data);
      case FieldDisconnect(port) => OnFieldDisconnect(port);
      case OpenPanelFailed(port) => OnOpenPanelFailed(port);
      case PanelConnect(port) => OnPanelConnect(port);
      case PanelMessage(port, data) => HandlePanelMessage(port, data);
      case PanelDisconnect(port) => OnPanelDisconnect(port);
      case ServerUrlChanged => OnServerUrlChanged();
    }
  }
}
