/** The messages that travel over the extension's ports. Only what the routing
    inspects is spelled out; the remaining envelopes are told apart by direction. */
module Protocol {
  import opened Wrappers

  datatype Capabilities = Capabilities(mark: string, replace: string)
  datatype Meta = Meta(url: string, fieldKind: string)
  datatype FieldInfo = FieldInfo(fieldId: string, text: string, capabilities: Capabilities, meta: Meta)

  datatype Envelope =
    | FieldConnected(info: FieldInfo)
    | TextChanged(fieldId: string, text: string)
    | ReplaceResult(requestId: string, fieldId: string, ok: bool, text: string)
    | FieldDisconnected(fieldId: string)
    | OtherHost(tag: string)
    | ReadyMessage
    | Status(phase: string, findingCount: int)
    | OtherEmbed(tag: string)

  /** Embed-to-host envelopes; all the others travel from the host. */
  predicate FromEmbedPage(m: Envelope) {
    m.ReadyMessage? || m.Status? || m.OtherEmbed?
  }

  datatype Control =
    | OpenPanel
    | PanelHello(windowId: int)
    | EmbedReady(ready: bool)
    | Detach(fieldId: string)
    | StatusControl(phase: string, findingCount: int, scope: Option<string>)
    | Disconnect
    | Ping

  datatype PortMessage = Relay(envelope: Envelope) | Ctl(ctl: Control)

  // A badge is blank or shows a count; rendering the count is not modelled.
  datatype Badge = Blank | Count(n: int)

  function CountBadge(findingCount: int): Badge {
    if findingCount > 0 then Count(findingCount) else Blank
  }
}

/** The per-window connection registry: a state machine whose operations
    return the effects the service worker executes against real ports. */
module Registries {
  import opened Wrappers
  import opened Protocol

  datatype FieldState = FieldState(tabId: int, info: FieldInfo)
  datatype WindowState = WindowState(field: Option<FieldState>, panelReady: bool)

  datatype Target = Panel | Field | OldField
  datatype Effect =
    | Send(to: Target, windowId: int, tabId: Option<int>, message: PortMessage)
    | SetBadge(badgeTab: int, text: Badge)

  // `order` is the insertion order in which a JavaScript Map iterates.
  datatype RegistryState = RegistryState(windows: map<int, WindowState>, order: seq<int>)

  const NEW_WINDOW := WindowState(None, false)

  ghost predicate ValidState(r: RegistryState) {
    && (forall w :: w in r.order <==> w in r.windows)
    && forall i, j :: 0 <= i < j < |r.order| ==> r.order[i] != r.order[j]
  }

  function WindowOf(r: RegistryState, windowId: int): WindowState {
    if windowId in r.windows then r.windows[windowId] else NEW_WINDOW
  }

  function Put(r: RegistryState, windowId: int, w: WindowState): RegistryState {
    RegistryState(r.windows[windowId := w], if windowId in r.windows then r.order else r.order + [windowId])
  }

  predicate Owns(w: WindowState, tabId: int) {
    w.field.Some? && w.field.value.tabId == tabId
  }

  function When(b: bool, e: Effect): seq<Effect> {
    if b then [e] else []
  }

  function ToPanel(windowId: int, m: Envelope): Effect {
    Send(Panel, windowId, None, Relay(m))
  }

  function ConnectField(r: RegistryState, windowId: int, tabId: int, info: FieldInfo): (RegistryState, seq<Effect>) {
    var w := WindowOf(r, windowId);
    var prior := if w.field.Some? then w.field.value else FieldState(tabId, info);
    (Put(r, windowId, w.(field := Some(FieldState(tabId, info)))),
     When(prior.tabId != tabId, Send(OldField, windowId, Some(prior.tabId), Ctl(Detach(prior.info.fieldId))))
     + When(w.field.Some?, SetBadge(prior.tabId, Blank))
     + When(w.panelReady, ToPanel(windowId, FieldConnected(info))))
  }

  function ChangeText(r: RegistryState, windowId: int, tabId: int, m: Envelope): (RegistryState, seq<Effect>)
    requires m.TextChanged?
  {
    var w := WindowOf(r, windowId);
    if !Owns(w, tabId) then (r, [])
    else
      var f := w.field.value;
      (Put(r, windowId, w.(field := Some(f.(info := f.info.(text := m.text))))),
       When(w.panelReady, ToPanel(windowId, m)))
  }

  function RelayFromHost(r: RegistryState, windowId: int, tabId: int, m: Envelope): (RegistryState, seq<Effect>) {
    var w := WindowOf(r, windowId);
    if !Owns(w, tabId) then (r, [])
    else if m.FieldDisconnected? then
      (Put(r, windowId, w.(field := None)),
       When(w.panelReady, ToPanel(windowId, m)) + [SetBadge(tabId, Blank)])
    else
      (r, When(w.panelReady, ToPanel(windowId, m)))
  }

  function RelayFromEmbed(r: RegistryState, windowId: int, m: Envelope): seq<Effect> {
    var w := WindowOf(r, windowId);
    if w.field.None? then []
    else
      var f := w.field.value;
      if m.Status? then
        [SetBadge(f.tabId, CountBadge(m.findingCount)),
         Send(Field, windowId, Some(f.tabId),
              Ctl(StatusControl(m.phase, m.findingCount, Some(f.info.fieldId))))]
      else
        [Send(Field, windowId, Some(f.tabId), Relay(m))]
  }

  function SetPanelReady(r: RegistryState, windowId: int, ready: bool): (RegistryState, seq<Effect>) {
    var w := WindowOf(r, windowId);
    (Put(r, windowId, w.(panelReady := ready)),
     if ready && !w.panelReady && w.field.Some?
     then [ToPanel(windowId, FieldConnected(w.field.value.info))]
     else [])
  }

  function DropFieldPort(r: RegistryState, windowId: int, tabId: int): (RegistryState, seq<Effect>) {
    var w := WindowOf(r, windowId);
    if !Owns(w, tabId) then (r, [])
    else
      (Put(r, windowId, w.(field := None)),
       When(w.panelReady, ToPanel(windowId, FieldDisconnected(w.field.value.info.fieldId)))
       + [SetBadge(tabId, Blank)])
  }

  function DropPanelPort(r: RegistryState, windowId: int): RegistryState {
    if windowId in r.windows then Put(r, windowId, r.windows[windowId].(panelReady := false)) else r
  }

  function RequestDisconnect(r: RegistryState, windowId: int): seq<Effect> {
    var w := WindowOf(r, windowId);
    if w.field.None? then []
    else [Send(Field, windowId, Some(w.field.value.tabId), Ctl(Disconnect))]
  }

  function DropEffects(windowId: int, w: WindowState): seq<Effect> {
    if w.field.None? then []
    else
      var f := w.field.value;
      [Send(Field, windowId, Some(f.tabId), Ctl(Detach(f.info.fieldId))), SetBadge(f.tabId, Blank)]
  }

  /** The server change restricted to the first n windows of the map. */
  function DropFirst(r: RegistryState, n: nat): (RegistryState, seq<Effect>)
    requires n <= |r.order|
  {
    if n == 0 then (r, [])
    else
      var (r', es) := DropFirst(r, n - 1);
      var id := r.order[n - 1];
      var w := WindowOf(r, id);
      (if w.field.None? then r' else RegistryState(r'.windows[id := w.(field := None)], r'.order),
       es + DropEffects(id, w))
  }

  function DropAllFields(r: RegistryState): (RegistryState, seq<Effect>) {
    DropFirst(r, |r.order|)
  }

  lemma OrderKnown(r: RegistryState, i: nat)
    requires ValidState(r) && i < |r.order|
    ensures r.order[i] in r.windows
  {
    assert r.order[i] in r.order;
  }

  lemma {:induction false} DropFirstKeeps(r: RegistryState, n: nat)
    requires ValidState(r) && n <= |r.order|
    ensures DropFirst(r, n).0.order == r.order && DropFirst(r, n).0.windows.Keys == r.windows.Keys
  {
    if n > 0 {
      DropFirstKeeps(r, n - 1);
      OrderKnown(r, n - 1);
    }
  }

  /** What the change has made of the i-th window once it has come to n. */
  lemma {:induction false} DropFirstAt(r: RegistryState, n: nat, i: nat)
    requires ValidState(r) && n <= |r.order| && i < |r.order|
    ensures r.order[i] in r.windows && r.order[i] in DropFirst(r, n).0.windows
    ensures DropFirst(r, n).0.windows[r.order[i]] ==
            if i < n then r.windows[r.order[i]].(field := None) else r.windows[r.order[i]]
  {
    OrderKnown(r, i);
    if n > 0 {
      DropFirstAt(r, n - 1, i);
    }
  }

  /** A server change takes every window's field and no window's readiness. */
  lemma DropAllFieldsWindows(r: RegistryState)
    requires ValidState(r)
    ensures var r' := DropAllFields(r).0;
            && ValidState(r')
            && forall w :: WindowOf(r', w) == WindowOf(r, w).(field := None)
  {
    DropFirstKeeps(r, |r.order|);
    var r' := DropAllFields(r).0;
    forall w ensures WindowOf(r', w) == WindowOf(r, w).(field := None) {
      if w in r.windows {
        var i :| 0 <= i < |r.order| && r.order[i] == w;
        DropFirstAt(r, |r.order|, i);
      }
    }
  }

  class Registry {
    var windows: map<int, WindowState>
    var order: seq<int>

    function State(): RegistryState
      reads this
    {
      RegistryState(windows, order)
    }

    ghost predicate Valid()
      reads this
    {
      ValidState(State())
    }

    constructor ()
      ensures Valid() && State() == RegistryState(map[], [])
    {
      windows, order := map[], [];
    }

    method GetOrCreate(windowId: int) returns (w: WindowState)
      requires Valid()
      modifies this
      ensures Valid() && w == WindowOf(old(State()), windowId)
      ensures State() == Put(old(State()), windowId, w)
    {
      if windowId !in windows {
        windows := windows[windowId := NEW_WINDOW];
        order := order + [windowId];
      }
      w := windows[windowId];
      assert windows == windows[windowId := w];
    }

    method FieldConnected(windowId: int, tabId: int, info: FieldInfo) returns (effects: seq<Effect>)
      requires Valid()
      modifies this
      ensures Valid()
      ensures var r := ConnectField(old(State()), windowId, tabId, info); State() == r.0 && effects == r.1
    {
      var w := GetOrCreate(windowId);
      effects := [];
      if w.field.Some? && w.field.value.tabId != tabId {
        effects := effects + [Send(OldField, windowId, Some(w.field.value.tabId),
                                   Ctl(Detach(w.field.value.info.fieldId)))];
      }
      if w.field.Some? {
        effects := effects + [SetBadge(w.field.value.tabId, Blank)];
      }
      windows := windows[windowId := w.(field := Some(FieldState(tabId, info)))];
      if w.panelReady {
        effects := effects + [ToPanel(windowId, Envelope.FieldConnected(info))];
      }
    }

    method TextChanged(windowId: int, tabId: int, m: Envelope) returns (effects: seq<Effect>)
      requires Valid() && m.TextChanged?
      modifies this
      ensures Valid()
      ensures var r := ChangeText(old(State()), windowId, tabId, m); State() == r.0 && effects == r.1
    {
      if windowId !in windows || !Owns(windows[windowId], tabId) { return []; }
      var w := windows[windowId];
      var f := w.field.value;
      windows := windows[windowId := w.(field := Some(f.(info := f.info.(text := m.text))))];
      if !w.panelReady { return []; }
      effects := [ToPanel(windowId, m)];
    }

    method HostRelay(windowId: int, tabId: int, m: Envelope) returns (effects: seq<Effect>)
      requires Valid()
      modifies this
      ensures Valid()
      ensures var r := RelayFromHost(old(State()), windowId, tabId, m); State() == r.0 && effects == r.1
    {
      if windowId !in windows || !Owns(windows[windowId], tabId) { return []; }
      var w := windows[windowId];
      if m.FieldDisconnected? {
        var clearedTabId := w.field.value.tabId;
        windows := windows[windowId := w.(field := None)];
        effects := [];
        if w.panelReady {
          effects := effects + [ToPanel(windowId, m)];
        }
        effects := effects + [SetBadge(clearedTabId, Blank)];
        return;
      }
      if !w.panelReady { return []; }
      effects := [ToPanel(windowId, m)];
    }

    method EmbedRelay(windowId: int, m: Envelope) returns (effects: seq<Effect>)
      ensures effects == RelayFromEmbed(State(), windowId, m)
    {
      if windowId !in windows || windows[windowId].field.None? { return []; }
      var f := windows[windowId].field.value;
      if m.Status? {
        effects := [SetBadge(f.tabId, CountBadge(m.findingCount)),
                    Send(Field, windowId, Some(f.tabId),
                         Ctl(StatusControl(m.phase, m.findingCount, Some(f.info.fieldId))))];
        return;
      }
      effects := [Send(Field, windowId, Some(f.tabId), Relay(m))];
    }

    method PanelReady(windowId: int, ready: bool) returns (effects: seq<Effect>)
      requires Valid()
      modifies this
      ensures Valid()
      ensures var r := SetPanelReady(old(State()), windowId, ready); State() == r.0 && effects == r.1
    {
      var w := GetOrCreate(windowId);
      if !ready {
        windows := windows[windowId := w.(panelReady := false)];
        return [];
      }
      if w.panelReady {
        assert w == w.(panelReady := true);
        return [];
      }
      windows := windows[windowId := w.(panelReady := true)];
      if w.field.None? { return []; }
      effects := [ToPanel(windowId, Envelope.FieldConnected(w.field.value.info))];
    }

    method FieldPortGone(windowId: int, tabId: int) returns (effects: seq<Effect>)
      requires Valid()
      modifies this
      ensures Valid()
      ensures var r := DropFieldPort(old(State()), windowId, tabId); State() == r.0 && effects == r.1
    {
      if windowId !in windows || !Owns(windows[windowId], tabId) { return []; }
      var w := windows[windowId];
      var fieldId := w.field.value.info.fieldId;
      windows := windows[windowId := w.(field := None)];
      effects := [];
      if w.panelReady {
        effects := effects + [ToPanel(windowId, FieldDisconnected(fieldId))];
      }
      effects := effects + [SetBadge(tabId, Blank)];
    }

    method PanelPortGone(windowId: int)
      requires Valid()
      modifies this
      ensures Valid()
      ensures State() == DropPanelPort(old(State()), windowId)
    {
      if windowId in windows {
        windows := windows[windowId := windows[windowId].(panelReady := false)];
      }
    }

    method DisconnectRequested(windowId: int) returns (effects: seq<Effect>)
      ensures effects == RequestDisconnect(State(), windowId)
    {
      if windowId !in windows || windows[windowId].field.None? { return []; }
      effects := [Send(Field, windowId, Some(windows[windowId].field.value.tabId), Ctl(Disconnect))];
    }

    method ServerChanged() returns (effects: seq<Effect>)
      requires Valid()
      modifies this
      ensures Valid()
      ensures var r := DropAllFields(old(State())); State() == r.0 && effects == r.1
    {
      effects := [];
      ghost var r := State();
      for i := 0 to |order|
        invariant order == r.order && Valid()
        invariant State() == DropFirst(r, i).0 && effects == DropFirst(r, i).1
      {
        DropFirstKeeps(r, i);
        DropFirstAt(r, i, i);
        var windowId := order[i];
        var w := windows[windowId];
        assert w == WindowOf(r, windowId);
        if w.field.Some? {
          var f := w.field.value;
          effects := effects + [Send(Field, windowId, Some(f.tabId), Ctl(Detach(f.info.fieldId))),
                                SetBadge(f.tabId, Blank)];
          windows := windows[windowId := w.(field := None)];
        }
      }
    }
  }
}
