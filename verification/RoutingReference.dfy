/** What every event of the service worker comes to, said without effects: what
    each port is sent, and what each window and each badge becomes. */
module RoutingReference {
  import opened Wrappers
  import opened Protocol
  import opened Registries
  import opened Routing
  import opened RoutingProofs

  // ---- Who is who ----

  predicate SpeaksForTab(s: System, tabId: int, port: int) {
    tabId in s.fieldPorts && s.fieldPorts[tabId].port == port
  }

  predicate SpeaksForWindow(s: System, windowId: int, port: int) {
    windowId in s.panelPorts && s.panelPorts[windowId] == port
  }

  predicate OfTab(s: System, windowId: int, tabId: int) {
    var f := WindowOf(s.reg, windowId).field;
    f.Some? && f.value.tabId == tabId
  }

  predicate ReadyPanel(s: System, windowId: int, port: int) {
    Ready(s, windowId) && SpeaksForWindow(s, windowId, port)
  }

  /** The port is the current one of the tab whose field the window has. */
  predicate PaintsField(s: System, windowId: int, port: int) {
    var f := WindowOf(s.reg, windowId).field;
    f.Some? && SpeaksForTab(s, f.value.tabId, port)
  }

  function If(b: bool, m: PortMessage): seq<PortMessage> {
    if b then [m] else []
  }

  // ---- What a port is sent ----

  /** A tab's field leaves a window: a ready panel there is told. */
  function ToldOfLoss(s: System, windowId: int, tabId: int, port: int): seq<PortMessage> {
    if OfTab(s, windowId, tabId)
    then If(ReadyPanel(s, windowId, port), Relay(FieldDisconnected(FieldOf(s, windowId).value.fieldId)))
    else []
  }

  /** A field connects: a ready panel is told, and so is the tab that loses
      the window to it. */
  function ToldOfConnect(s: System, windowId: int, tabId: int, info: FieldInfo, port: int): seq<PortMessage> {
    (if FieldOf(s, windowId).Some? && !OfTab(s, windowId, tabId)
     then If(PaintsField(s, windowId, port), Ctl(Detach(FieldOf(s, windowId).value.fieldId))) else [])
    + If(ReadyPanel(s, windowId, port), Relay(FieldConnected(info)))
  }

  function ToldByHost(s: System, windowId: int, tabId: int, m: Envelope, port: int): seq<PortMessage> {
    if m.FieldConnected? then ToldOfConnect(s, windowId, tabId, m.info, port)
    else If(OfTab(s, windowId, tabId) && ReadyPanel(s, windowId, port), Relay(m))
  }

  /** What the current panel of a window says reaches the window's field; a
      fresh ready edge is answered with the field. */
  function ToldByPanel(s: System, windowId: int, m: PortMessage, port: int): seq<PortMessage> {
    if FieldOf(s, windowId).None? then []
    else
      var field := FieldOf(s, windowId).value;
      match m
      case Relay(Status(phase, count)) =>
        If(PaintsField(s, windowId, port), Ctl(StatusControl(phase, count, Some(field.fieldId))))
      case Relay(_) => If(PaintsField(s, windowId, port), m)
      case Ctl(Disconnect) => If(PaintsField(s, windowId, port), Ctl(Disconnect))
      case Ctl(EmbedReady(true)) =>
        If(!Ready(s, windowId) && SpeaksForWindow(s, windowId, port), Relay(FieldConnected(field)))
      case _ => []
  }

  /** What an event makes the worker send to a port: nothing, unless listed. */
  function Told(s: System, e: Event, port: int): seq<PortMessage>
    requires Enabled(s, e)
  {
    match e
    case FieldConnect(_, Some(Origin(tabId, _))) =>
      if tabId in s.fieldPorts then ToldOfLoss(s, s.fieldPorts[tabId].windowId, tabId, port) else []
    case FieldDisconnect(from) =>
      var Origin(tabId, windowId) := s.fieldOrigin[from];
      if SpeaksForTab(s, tabId, from) then ToldOfLoss(s, windowId, tabId, port) else []
    case FieldMessage(from, Some(Relay(m))) =>
      var Origin(tabId, windowId) := s.fieldOrigin[from];
      if SpeaksForTab(s, tabId, from) then ToldByHost(s, windowId, tabId, m, port) else []
    case OpenPanelFailed(from) =>
      If(port == from && SpeaksForTab(s, s.fieldOrigin[from].tabId, from), Ctl(StatusControl("error", 0, None)))
    case PanelMessage(from, Some(m)) =>
      var home := s.panelWindow[from];
      if home.Some? && SpeaksForWindow(s, home.value, from) then ToldByPanel(s, home.value, m, port) else []
    case ServerUrlChanged => ToldOfServer(s, port)
    case _ => []
  }

  /** A server change reaches the current port of each tab that has a field. */
  function ToldOfServer(s: System, port: int): seq<PortMessage> {
    if port !in s.fieldOrigin then []
    else
      var tabId := s.fieldOrigin[port].tabId;
      if SpeaksForTab(s, tabId, port) && OfTab(s, s.fieldPorts[tabId].windowId, tabId)
      then [Ctl(Detach(FieldOf(s, s.fieldPorts[tabId].windowId).value.fieldId))]
      else []
  }

  // ---- What a window and a badge become ----

  function AfterHost(s: System, windowId: int, tabId: int, m: Envelope): WindowState {
    var w := WindowOf(s.reg, windowId);
    if m.FieldConnected? then w.(field := Some(FieldState(tabId, m.info)))
    else if !OfTab(s, windowId, tabId) then w
    else if m.TextChanged? then w.(field := Some(FieldState(tabId, w.field.value.info.(text := m.text))))
    else if m.FieldDisconnected? then w.(field := None)
    else w
  }

  function AfterLoss(s: System, windowId: int, tabId: int): WindowState {
    var w := WindowOf(s.reg, windowId);
    if OfTab(s, windowId, tabId) then w.(field := None) else w
  }

  function WindowAfter(s: System, e: Event, windowId: int): WindowState
    requires Enabled(s, e)
  {
    var w := WindowOf(s.reg, windowId);
    match e
    case FieldConnect(_, Some(Origin(tabId, _))) =>
      if tabId in s.fieldPorts && s.fieldPorts[tabId].windowId == windowId then AfterLoss(s, windowId, tabId) else w
    case FieldDisconnect(from) =>
      var Origin(tabId, home) := s.fieldOrigin[from];
      if SpeaksForTab(s, tabId, from) && home == windowId then AfterLoss(s, windowId, tabId) else w
    case FieldMessage(from, Some(Relay(m))) =>
      var Origin(tabId, home) := s.fieldOrigin[from];
      if SpeaksForTab(s, tabId, from) && home == windowId then AfterHost(s, windowId, tabId, m) else w
    case PanelMessage(from, Some(Ctl(PanelHello(home)))) =>
      if home == windowId && home in s.panelPorts then w.(panelReady := false) else w
    case PanelMessage(from, Some(Ctl(EmbedReady(ready)))) =>
      if s.panelWindow[from] == Some(windowId) && SpeaksForWindow(s, windowId, from) then w.(panelReady := ready) else w
    case PanelDisconnect(from) =>
      if s.panelWindow[from] == Some(windowId) && SpeaksForWindow(s, windowId, from) then w.(panelReady := false) else w
    case ServerUrlChanged => w.(field := None)
    case _ => w
  }

  /** A tab's badge is blanked when its field goes or is replaced, and follows
      the status of its field; nothing else paints it. */
  function BadgeAfter(s: System, e: Event, tabId: int): Badge
    requires Enabled(s, e)
  {
    match e
    case FieldConnect(_, Some(Origin(t, _))) =>
      if t == tabId && t in s.fieldPorts && OfTab(s, s.fieldPorts[t].windowId, t) then Blank else BadgeOf(s, tabId)
    case FieldDisconnect(from) =>
      var Origin(t, home) := s.fieldOrigin[from];
      if t == tabId && SpeaksForTab(s, t, from) && OfTab(s, home, t) then Blank else BadgeOf(s, tabId)
    case FieldMessage(from, Some(Relay(m))) =>
      var Origin(t, home) := s.fieldOrigin[from];
      if SpeaksForTab(s, t, from) && OfTab(s, home, tabId)
         && (m.FieldConnected? || (m.FieldDisconnected? && t == tabId))
      then Blank else BadgeOf(s, tabId)
    case PanelMessage(from, Some(Relay(Status(_, count)))) =>
      var home := s.panelWindow[from];
      if home.Some? && SpeaksForWindow(s, home.value, from) && OfTab(s, home.value, tabId)
      then (if count > 0 then Count(count) else Blank) else BadgeOf(s, tabId)
    case ServerUrlChanged =>
      if tabId in s.fieldPorts && OfTab(s, s.fieldPorts[tabId].windowId, tabId) then Blank else BadgeOf(s, tabId)
    case _ => BadgeOf(s, tabId)
  }

  // ---- The effects post exactly that ----

  function PostedOne(s: System, e: Effect, port: int): seq<PortMessage> {
    match e
    case SetBadge(_, _) => []
    case Send(to, windowId, tabId, m) =>
      If(if to.Panel? then SpeaksForWindow(s, windowId, port)
         else tabId.Some? && SpeaksForTab(s, tabId.value, port), m)
  }

  function Posted(s: System, es: seq<Effect>, port: int): seq<PortMessage> {
    if es == [] then [] else Posted(s, es[..|es| - 1], port) + PostedOne(s, es[|es| - 1], port)
  }

  lemma PostReaches(s: System, to: int, m: PortMessage, port: int)
    ensures SentTo(Post(s, to, m), port) == SentTo(s, port) + If(port == to, m)
  {
  }

  lemma ExecuteOnePosts(s: System, e: Effect, port: int)
    ensures SentTo(ExecuteOne(s, e), port) == SentTo(s, port) + PostedOne(s, e, port)
  {
    if e.Send? {
      if e.to.Panel? {
        if e.windowId in s.panelPorts {
          PostReaches(s, s.panelPorts[e.windowId], e.message, port);
        }
      } else if e.tabId.Some? && e.tabId.value in s.fieldPorts {
        PostReaches(s, s.fieldPorts[e.tabId.value].port, e.message, port);
      }
    }
  }

  lemma PortsDecide(s: System, s': System, e: Effect, port: int)
    requires s'.fieldPorts == s.fieldPorts && s'.panelPorts == s.panelPorts
    ensures PostedOne(s', e, port) == PostedOne(s, e, port)
  {
  }

  lemma {:induction false} ExecutePosts(s: System, es: seq<Effect>, port: int)
    ensures SentTo(Execute(s, es), port) == SentTo(s, port) + Posted(s, es, port)
  {
    if es != [] {
      var s1, last := Execute(s, es[..|es| - 1]), es[|es| - 1];
      ExecutePosts(s, es[..|es| - 1], port);
      ExecuteFrames(s, es[..|es| - 1]);
      ExecuteOnePosts(s1, last, port);
      PortsDecide(s, s1, last, port);
    }
  }

  lemma {:induction false} PostedAppend(s: System, a: seq<Effect>, b: seq<Effect>, port: int)
    ensures Posted(s, a + b, port) == Posted(s, a, port) + Posted(s, b, port)
  {
    if b == [] {
      assert a + b == a;
    } else {
      assert (a + b)[..|a + b| - 1] == a + b[..|b| - 1];
      PostedAppend(s, a, b[..|b| - 1], port);
    }
  }

  lemma PostedWhen(s: System, b: bool, e: Effect, port: int)
    ensures Posted(s, When(b, e), port) == if b then PostedOne(s, e, port) else []
  {
    if b {
      assert [e][..0] == [];
    }
  }

  lemma ApplyPosts(s: System, r: (RegistryState, seq<Effect>), port: int)
    ensures SentTo(Apply(s, r), port) == SentTo(s, port) + Posted(s, r.1, port)
  {
    ExecutePosts(s.(reg := r.0), r.1, port);
    PostedIgnoresRegistry(s, r.0, r.1, port);
  }

  lemma {:induction false} PostedIgnoresRegistry(s: System, r: RegistryState, es: seq<Effect>, port: int)
    ensures Posted(s.(reg := r), es, port) == Posted(s, es, port)
  {
    if es != [] {
      PostedIgnoresRegistry(s, r, es[..|es| - 1], port);
    }
  }

  lemma ConnectPosts(s: System, windowId: int, tabId: int, info: FieldInfo, port: int)
    ensures Posted(s, ConnectField(s.reg, windowId, tabId, info).1, port) == ToldOfConnect(s, windowId, tabId, info, port)
  {
    var w := WindowOf(s.reg, windowId);
    var prior := if w.field.Some? then w.field.value else FieldState(tabId, info);
    var detach := Send(OldField, windowId, Some(prior.tabId), Ctl(Detach(prior.info.fieldId)));
    PostedThree(s, prior.tabId != tabId, detach, w.field.Some?, prior.tabId,
                w.panelReady, ToPanel(windowId, FieldConnected(info)), port);
  }

  lemma PostedThree(s: System, b1: bool, e1: Effect, b2: bool, tabId: int, b3: bool, e3: Effect, port: int)
    ensures Posted(s, When(b1, e1) + When(b2, SetBadge(tabId, Blank)) + When(b3, e3), port) ==
            (if b1 then PostedOne(s, e1, port) else []) + (if b3 then PostedOne(s, e3, port) else [])
  {
    PostedAppend(s, When(b1, e1) + When(b2, SetBadge(tabId, Blank)), When(b3, e3), port);
    PostedAppend(s, When(b1, e1), When(b2, SetBadge(tabId, Blank)), port);
    PostedWhen(s, b1, e1, port);
    PostedWhen(s, b2, SetBadge(tabId, Blank), port);
    PostedWhen(s, b3, e3, port);
  }

  lemma RelayPosts(s: System, windowId: int, ready: bool, m: Envelope, blanks: bool, tabId: int, port: int)
    ensures Posted(s, When(ready, ToPanel(windowId, m)) + When(blanks, SetBadge(tabId, Blank)), port)
         == If(ready && SpeaksForWindow(s, windowId, port), Relay(m))
    ensures Posted(s, When(ready, ToPanel(windowId, m)), port) == If(ready && SpeaksForWindow(s, windowId, port), Relay(m))
  {
    PostedAppend(s, When(ready, ToPanel(windowId, m)), When(blanks, SetBadge(tabId, Blank)), port);
    PostedWhen(s, ready, ToPanel(windowId, m), port);
    PostedWhen(s, blanks, SetBadge(tabId, Blank), port);
  }

  lemma LossPosts(s: System, windowId: int, tabId: int, port: int)
    ensures Posted(s, DropFieldPort(s.reg, windowId, tabId).1, port) == ToldOfLoss(s, windowId, tabId, port)
  {
    if OfTab(s, windowId, tabId) {
      RelayPosts(s, windowId, Ready(s, windowId), FieldDisconnected(FieldOf(s, windowId).value.fieldId), true, tabId, port);
    }
  }

  lemma HostPosts(s: System, windowId: int, tabId: int, m: Envelope, port: int)
    requires !m.FieldConnected?
    ensures Posted(s, RelayFromHost(s.reg, windowId, tabId, m).1, port) == ToldByHost(s, windowId, tabId, m, port)
    ensures m.TextChanged? ==>
              Posted(s, ChangeText(s.reg, windowId, tabId, m).1, port) == ToldByHost(s, windowId, tabId, m, port)
  {
    RelayPosts(s, windowId, Ready(s, windowId), m, true, tabId, port);
  }

  lemma PostedSingle(s: System, e: Effect, port: int)
    ensures Posted(s, [e], port) == PostedOne(s, e, port)
  {
    assert [e][..0] == [];
  }

  lemma PanelPosts(s: System, windowId: int, m: PortMessage, port: int)
    ensures m.Relay? ==>
              Posted(s, RelayFromEmbed(s.reg, windowId, m.envelope), port) == ToldByPanel(s, windowId, m, port)
    ensures m == Ctl(Disconnect) ==>
              Posted(s, RequestDisconnect(s.reg, windowId), port) == ToldByPanel(s, windowId, m, port)
    ensures m.Ctl? && m.ctl.EmbedReady? ==>
              Posted(s, SetPanelReady(s.reg, windowId, m.ctl.ready).1, port) == ToldByPanel(s, windowId, m, port)
  {
    var f := WindowOf(s.reg, windowId).field;
    if f.Some? {
      if m.Relay? {
        var es := RelayFromEmbed(s.reg, windowId, m.envelope);
        PostedSingle(s, es[0], port);
        if m.envelope.Status? {
          assert es[..1] == [es[0]];
        }
      } else if m.ctl.Disconnect? {
        PostedSingle(s, RequestDisconnect(s.reg, windowId)[0], port);
      } else if m.ctl.EmbedReady? {
        PostedSingle(s, ToPanel(windowId, FieldConnected(f.value.info)), port);
      }
    }
  }

  /** The server change, once it has come to the n-th window. */
  function ToldByFirst(s: System, n: nat, port: int): seq<PortMessage>
    requires n <= |s.reg.order|
  {
    if n == 0 then []
    else
      var id := s.reg.order[n - 1];
      ToldByFirst(s, n - 1, port)
      + if PaintsField(s, id, port) then [Ctl(Detach(FieldOf(s, id).value.fieldId))] else []
  }

  lemma {:induction false} DropFirstPosts(s: System, n: nat, port: int)
    requires n <= |s.reg.order|
    ensures Posted(s, DropFirst(s.reg, n).1, port) == ToldByFirst(s, n, port)
  {
    if n > 0 {
      DropFirstPosts(s, n - 1, port);
      var id := s.reg.order[n - 1];
      PostedAppend(s, DropFirst(s.reg, n - 1).1, DropEffects(id, WindowOf(s.reg, id)), port);
      DropEffectsPost(s, id, port);
    }
  }

  lemma DropEffectsPost(s: System, windowId: int, port: int)
    ensures Posted(s, DropEffects(windowId, WindowOf(s.reg, windowId)), port) ==
            if PaintsField(s, windowId, port) then [Ctl(Detach(FieldOf(s, windowId).value.fieldId))] else []
  {
    var es := DropEffects(windowId, WindowOf(s.reg, windowId));
    if es != [] {
      PostedSingle(s, es[0], port);
      assert es[..1] == [es[0]];
    }
  }

  /** At most one window has the field of a port's tab. */
  lemma {:induction false} OnePaints(s: System, n: nat, port: int)
    requires Wired(s) && n <= |s.reg.order|
    ensures port !in s.fieldOrigin ==> ToldByFirst(s, n, port) == []
    ensures port in s.fieldOrigin && (exists i :: 0 <= i < n && PaintsField(s, s.reg.order[i], port)) ==>
              ToldByFirst(s, n, port) == ToldOfServer(s, port)
    ensures (forall i :: 0 <= i < n ==> !PaintsField(s, s.reg.order[i], port)) ==> ToldByFirst(s, n, port) == []
  {
    if n > 0 {
      OnePaints(s, n - 1, port);
      var id := s.reg.order[n - 1];
      if PaintsField(s, id, port) {
        PaintsHome(s, id, port);
        forall i | 0 <= i < n - 1 ensures !PaintsField(s, s.reg.order[i], port) {
          if PaintsField(s, s.reg.order[i], port) {
            PaintsHome(s, s.reg.order[i], port);
          }
        }
      }
    }
  }

  lemma PaintsHome(s: System, windowId: int, port: int)
    requires Wired(s) && PaintsField(s, windowId, port)
    ensures port in s.fieldOrigin
    ensures var tabId := s.fieldOrigin[port].tabId;
            && SpeaksForTab(s, tabId, port) && s.fieldPorts[tabId].windowId == windowId && OfTab(s, windowId, tabId)
  {
    assert NoGhost(s, windowId);
  }

  lemma ServerPosts(s: System, port: int)
    requires Wired(s)
    ensures Posted(s, DropAllFields(s.reg).1, port) == ToldOfServer(s, port)
  {
    DropFirstPosts(s, |s.reg.order|, port);
    OnePaints(s, |s.reg.order|, port);
    if ToldOfServer(s, port) != [] {
      var windowId := s.fieldPorts[s.fieldOrigin[port].tabId].windowId;
      assert windowId in s.reg.order;
      var i :| 0 <= i < |s.reg.order| && s.reg.order[i] == windowId;
      assert PaintsField(s, s.reg.order[i], port);
    }
  }

  ghost predicate SentAsTold(s: System, e: Event, port: int)
    requires Enabled(s, e)
  {
    SentTo(Step(s, e), port) == SentTo(s, port) + Told(s, e, port)
  }

  lemma FieldPortSends(s: System, e: Event, port: int)
    requires Wired(s) && Enabled(s, e) && (e.FieldConnect? || e.FieldDisconnect?)
    ensures SentAsTold(s, e, port)
  {
    if e.FieldDisconnect? {
      var Origin(tabId, windowId) := s.fieldOrigin[e.port];
      DropCommutes(s, windowId, tabId);
      ApplyPosts(s, DropFieldPort(s.reg, windowId, tabId), port);
      LossPosts(s, windowId, tabId, port);
    } else if e.sender.Some? && e.sender.value.tabId in s.fieldPorts {
      var tabId := e.sender.value.tabId;
      var windowId := s.fieldPorts[tabId].windowId;
      ApplyPosts(s, DropFieldPort(s.reg, windowId, tabId), port);
      LossPosts(s, windowId, tabId, port);
    }
  }

  /** The worker after a host's envelope from the tab's current port. */
  function Hear(s: System, windowId: int, tabId: int, m: Envelope): System {
    if m.FieldConnected? then Apply(s, ConnectField(s.reg, windowId, tabId, m.info))
    else if m.TextChanged? then Apply(s, ChangeText(s.reg, windowId, tabId, m))
    else Apply(s, RelayFromHost(s.reg, windowId, tabId, m))
  }

  lemma FieldMessageHears(s: System, e: Event)
    requires Enabled(s, e) && e.FieldMessage?
    ensures var Origin(tabId, windowId) := s.fieldOrigin[e.port];
            Step(s, e) ==
            if SpeaksForTab(s, tabId, e.port) && e.data.Some? && e.data.value.Relay?
            then Hear(s, windowId, tabId, e.data.value.envelope) else s
  {
  }

  lemma HearSends(s: System, windowId: int, tabId: int, m: Envelope, port: int)
    ensures SentTo(Hear(s, windowId, tabId, m), port) == SentTo(s, port) + ToldByHost(s, windowId, tabId, m, port)
  {
    if m.FieldConnected? {
      ApplyPosts(s, ConnectField(s.reg, windowId, tabId, m.info), port);
      ConnectPosts(s, windowId, tabId, m.info, port);
    } else {
      HostPosts(s, windowId, tabId, m, port);
      if m.TextChanged? {
        ApplyPosts(s, ChangeText(s.reg, windowId, tabId, m), port);
      } else {
        ApplyPosts(s, RelayFromHost(s.reg, windowId, tabId, m), port);
      }
    }
  }

  lemma FieldMessageSends(s: System, e: Event, port: int)
    requires Enabled(s, e) && e.FieldMessage?
    ensures SentAsTold(s, e, port)
  {
    FieldMessageHears(s, e);
    if e.data.Some? && e.data.value.Relay? {
      var Origin(tabId, windowId) := s.fieldOrigin[e.port];
      HearSends(s, windowId, tabId, e.data.value.envelope, port);
    }
  }

  /** The worker after a message from the window's current panel port. */
  function HearPanel(s: System, windowId: int, m: PortMessage): System {
    match m
    case Relay(envelope) => Execute(s, RelayFromEmbed(s.reg, windowId, envelope))
    case Ctl(EmbedReady(ready)) => Apply(s, SetPanelReady(s.reg, windowId, ready))
    case Ctl(Disconnect) => Execute(s, RequestDisconnect(s.reg, windowId))
    case _ => s
  }

  predicate IsHello(e: Event) {
    e.PanelMessage? && e.data.Some? && e.data.value.Ctl? && e.data.value.ctl.PanelHello?
  }

  lemma PanelMessageHears(s: System, e: Event)
    requires Enabled(s, e) && e.PanelMessage? && !IsHello(e)
    ensures var home := s.panelWindow[e.port];
            Step(s, e) ==
            if e.data.Some? && home.Some? && SpeaksForWindow(s, home.value, e.port)
            then HearPanel(s, home.value, e.data.value) else s
  {
  }

  lemma HearPanelSends(s: System, windowId: int, m: PortMessage, port: int)
    ensures SentTo(HearPanel(s, windowId, m), port) == SentTo(s, port) + ToldByPanel(s, windowId, m, port)
  {
    PanelPosts(s, windowId, m, port);
    if m.Relay? {
      ExecutePosts(s, RelayFromEmbed(s.reg, windowId, m.envelope), port);
    } else if m.ctl.EmbedReady? {
      ApplyPosts(s, SetPanelReady(s.reg, windowId, m.ctl.ready), port);
    } else if m.ctl.Disconnect? {
      ExecutePosts(s, RequestDisconnect(s.reg, windowId), port);
    }
  }

  lemma PanelMessageSends(s: System, e: Event, port: int)
    requires Enabled(s, e) && e.PanelMessage?
    ensures SentAsTold(s, e, port)
  {
    if !IsHello(e) {
      PanelMessageHears(s, e);
      if e.data.Some? && s.panelWindow[e.port].Some? {
        HearPanelSends(s, s.panelWindow[e.port].value, e.data.value, port);
      }
    }
  }

  lemma StepSends(s: System, e: Event, port: int)
    requires Wired(s) && Enabled(s, e)
    ensures SentAsTold(s, e, port)
  {
    match e
    case FieldConnect(_, _) => FieldPortSends(s, e, port);
    case FieldDisconnect(_) => FieldPortSends(s, e, port);
    case FieldMessage(_, _) => FieldMessageSends(s, e, port);
    case PanelMessage(_, _) => PanelMessageSends(s, e, port);
    case ServerUrlChanged =>
      ApplyPosts(s, DropAllFields(s.reg), port);
      ServerPosts(s, port);
    case _ =>
  }

  // ---- The windows and badges become exactly that ----

  ghost predicate BecomesAsTold(s: System, e: Event, windowId: int, tabId: int)
    requires Enabled(s, e)
  {
    && WindowOf(Step(s, e).reg, windowId) == WindowAfter(s, e, windowId)
    && BadgeOf(Step(s, e), tabId) == BadgeAfter(s, e, tabId)
  }

  lemma LossBecomes(s: System, home: int, t: int, windowId: int, tabId: int)
    requires Wired(s)
    ensures var s' := Apply(s, DropFieldPort(s.reg, home, t));
            && WindowOf(s'.reg, windowId) == (if windowId == home then AfterLoss(s, home, t) else WindowOf(s.reg, windowId))
            && BadgeOf(s', tabId) == if t == tabId && OfTab(s, home, t) then Blank else BadgeOf(s, tabId)
  {
    if OfTab(s, home, t) {
      FieldGoneMoves(s, home, t);
    }
  }

  lemma FieldPortBecomes(s: System, e: Event, windowId: int, tabId: int)
    requires Wired(s) && Enabled(s, e) && (e.FieldConnect? || e.FieldDisconnect?)
    ensures BecomesAsTold(s, e, windowId, tabId)
  {
    if e.FieldDisconnect? {
      var Origin(t, home) := s.fieldOrigin[e.port];
      LossBecomes(s, home, t, windowId, tabId);
      DropCommutes(s, home, t);
    } else if e.sender.Some? && e.sender.value.tabId in s.fieldPorts {
      var t := e.sender.value.tabId;
      assert s.fieldPorts[t].port in s.fieldOrigin;
      LossBecomes(s, s.fieldPorts[t].windowId, t, windowId, tabId);
    }
  }

  lemma HearBecomes(s: System, home: int, t: int, m: Envelope, windowId: int, tabId: int)
    requires Wired(s)
    ensures var s' := Hear(s, home, t, m);
            && WindowOf(s'.reg, windowId) == (if windowId == home then AfterHost(s, home, t, m) else WindowOf(s.reg, windowId))
            && BadgeOf(s', tabId) ==
               if OfTab(s, home, tabId) && (m.FieldConnected? || (m.FieldDisconnected? && t == tabId))
               then Blank else BadgeOf(s, tabId)
  {
    if m.FieldConnected? {
      ConnectMoves(s, home, t, m.info);
    } else if OfTab(s, home, t) {
      if m.TextChanged? {
        ChangeTextMoves(s, home, t, m);
      } else {
        HostRelayMoves(s, home, t, m);
      }
    }
  }

  lemma FieldMessageBecomes(s: System, e: Event, windowId: int, tabId: int)
    requires Wired(s) && Enabled(s, e) && e.FieldMessage?
    ensures BecomesAsTold(s, e, windowId, tabId)
  {
    FieldMessageHears(s, e);
    if e.data.Some? && e.data.value.Relay? {
      HearBecomes(s, s.fieldOrigin[e.port].windowId, s.fieldOrigin[e.port].tabId, e.data.value.envelope, windowId, tabId);
    }
  }

  lemma HearPanelBecomes(s: System, home: int, m: PortMessage, windowId: int, tabId: int)
    requires Wired(s)
    ensures var s' := HearPanel(s, home, m);
            && WindowOf(s'.reg, windowId) ==
               (if windowId == home && m.Ctl? && m.ctl.EmbedReady? then WindowOf(s.reg, windowId).(panelReady := m.ctl.ready)
                else WindowOf(s.reg, windowId))
            && BadgeOf(s', tabId) ==
               if m.Relay? && m.envelope.Status? && OfTab(s, home, tabId)
               then (if m.envelope.findingCount > 0 then Count(m.envelope.findingCount) else Blank)
               else BadgeOf(s, tabId)
  {
    if m.Relay? {
      EmbedRelayMoves(s, home, m.envelope);
    } else if m.ctl.EmbedReady? {
      PanelReadyMoves(s, home, m.ctl.ready);
    } else if m.ctl.Disconnect? {
      ExecuteFrames(s, RequestDisconnect(s.reg, home));
      DisconnectPaintsNothing(s, home, tabId);
    }
  }

  lemma PanelMessageBecomes(s: System, e: Event, windowId: int, tabId: int)
    requires Wired(s) && Enabled(s, e) && e.PanelMessage?
    ensures BecomesAsTold(s, e, windowId, tabId)
  {
    if !IsHello(e) {
      PanelMessageHears(s, e);
      if e.data.Some? && s.panelWindow[e.port].Some? {
        HearPanelBecomes(s, s.panelWindow[e.port].value, e.data.value, windowId, tabId);
      }
    }
  }

  lemma DisconnectPaintsNothing(s: System, windowId: int, tabId: int)
    ensures BadgeOf(Execute(s, RequestDisconnect(s.reg, windowId)), tabId) == BadgeOf(s, tabId)
  {
    if FieldOf(s, windowId).Some? {
      ExecuteSingle(s, RequestDisconnect(s.reg, windowId)[0]);
    }
  }

  lemma ServerChangeBecomes(s: System, windowId: int, tabId: int)
    requires Wired(s)
    ensures BecomesAsTold(s, ServerUrlChanged, windowId, tabId)
  {
    ServerChangeEffects(s);
  }

  lemma StepBecomes(s: System, e: Event, windowId: int, tabId: int)
    requires Wired(s) && Enabled(s, e)
    ensures BecomesAsTold(s, e, windowId, tabId)
  {
    match e
    case FieldConnect(_, _) => FieldPortBecomes(s, e, windowId, tabId);
    case FieldDisconnect(_) => FieldPortBecomes(s, e, windowId, tabId);
    case FieldMessage(_, _) => FieldMessageBecomes(s, e, windowId, tabId);
    case PanelMessage(_, _) => PanelMessageBecomes(s, e, windowId, tabId);
    case ServerUrlChanged => ServerChangeBecomes(s, windowId, tabId);
    case _ =>
  }

  // ---- Theorems ----

  /** In every reachable state, every event sends every port, field or panel,
      exactly what is listed for it, and nothing when nothing is. */
  lemma PortsAreTold(events: seq<Event>, e: Event, port: int)
    requires After(events).Some? && Enabled(After(events).value.0, e)
    ensures var s := After(events).value.0;
            SentTo(Step(s, e), port) == SentTo(s, port) + Told(s, e, port)
  {
    RunKeeps(events);
    StepSends(After(events).value.0, e, port);
  }

  /** And every window's field and readiness, and every tab's badge, become
      exactly what is listed for the event. */
  lemma WindowsAndBadgesFollow(events: seq<Event>, e: Event, windowId: int, tabId: int)
    requires After(events).Some? && Enabled(After(events).value.0, e)
    ensures var s := After(events).value.0;
            && WindowOf(Step(s, e).reg, windowId) == WindowAfter(s, e, windowId)
            && BadgeOf(Step(s, e), tabId) == BadgeAfter(s, e, tabId)
  {
    RunKeeps(events);
    StepBecomes(After(events).value.0, e, windowId, tabId);
  }
}
