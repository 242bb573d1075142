/** What every reachable state of the service worker keeps: each field belongs
    to its tab's current port and window, badges tell the truth, and a ready
    panel's copy of the field is the registry's. */
module RoutingProofs {
  import opened Wrappers
  import opened Protocol
  import opened Registries
  import opened Routing

  // ---- The panel's copy, from the messages alone ----

  function FoldOne(copy: Option<FieldInfo>, m: PortMessage): Option<FieldInfo> {
    match m
    case Relay(FieldConnected(info)) => Some(info)
    case Relay(TextChanged(_, text)) => if copy.Some? then Some(copy.value.(text := text)) else None
    case Relay(FieldDisconnected(_)) => None
    case _ => copy
  }

  function Fold(ms: seq<PortMessage>): Option<FieldInfo> {
    if ms == [] then None else FoldOne(Fold(ms[..|ms| - 1]), ms[|ms| - 1])
  }

  function FieldOf(s: System, windowId: int): Option<FieldInfo> {
    var w := WindowOf(s.reg, windowId);
    if w.field.Some? then Some(w.field.value.info) else None
  }

  predicate Ready(s: System, windowId: int) {
    WindowOf(s.reg, windowId).panelReady
  }

  // ---- What an outside observer remembers ----

  datatype History = History(
    since: map<int, nat>,       // messages already sent to the panel at its last ready edge
    lastCount: map<int, int>,   // last status count relayed since the window's field connected
    orphaned: set<int>)         // windows whose field a server change took without telling the panel

  const NO_HISTORY := History(map[], map[], {})

  /** The window whose panel this event makes ready, if it was not. */
  function ReadyEdge(s: System, e: Event): Option<int>
    requires Enabled(s, e)
  {
    if e.PanelMessage? && e.data == Some(Ctl(EmbedReady(true))) then
      var home := s.panelWindow[e.port];
      if home.Some? && CurrentPanel(s, home.value, e.port) && !Ready(s, home.value) then home else None
    else None
  }

  /** The window in which this event connects a field. */
  function Connects(s: System, e: Event): Option<int>
    requires Enabled(s, e)
  {
    if e.FieldMessage? && e.data.Some? && e.data.value.Relay? && e.data.value.envelope.FieldConnected?
       && CurrentField(s, s.fieldOrigin[e.port].tabId, e.port)
    then Some(s.fieldOrigin[e.port].windowId)
    else None
  }

  /** The window whose field this event reports a status for. */
  function Reports(s: System, e: Event): Option<int>
    requires Enabled(s, e)
  {
    if e.PanelMessage? && e.data.Some? && e.data.value.Relay? && e.data.value.envelope.Status? then
      var home := s.panelWindow[e.port];
      if home.Some? && CurrentPanel(s, home.value, e.port) && FieldOf(s, home.value).Some?
      then home else None
    else None
  }

  function Observe(s: System, e: Event, h: History): History
    requires Enabled(s, e)
  {
    var edge, connects, reports := ReadyEdge(s, e), Connects(s, e), Reports(s, e);
    History(
      if edge.Some? then h.since[edge.value := |SentTo(s, e.port)|] else h.since,
      if connects.Some? then h.lastCount[connects.value := 0]
      else if reports.Some? then h.lastCount[reports.value := e.data.value.envelope.findingCount]
      else h.lastCount,
      if e.ServerUrlChanged? then h.orphaned + set w | w in s.reg.windows && FieldOf(s, w).Some?
      else h.orphaned - (if edge.Some? then {edge.value} else {})
           - (if connects.Some? then {connects.value} else {}))
  }

  // ---- The invariant ----

  /** Ports and windows agree; a field's tab has a current port opened in the
      field's own window; a ready window has a panel port. */
  ghost predicate Wired(s: System) {
    && ValidState(s.reg)
    && (forall p :: p in s.fieldOrigin ==> p !in s.panelWindow)
    && (forall t :: t in s.fieldPorts ==>
          && s.fieldPorts[t].port in s.fieldOrigin
          && s.fieldOrigin[s.fieldPorts[t].port] == Origin(t, s.fieldPorts[t].windowId))
    && (forall w :: w in s.panelPorts ==>
          s.panelPorts[w] in s.panelWindow && s.panelWindow[s.panelPorts[w]] == Some(w))
    && (forall w :: Ready(s, w) ==> w in s.panelPorts)
    && (forall w :: NoGhost(s, w))
  }

  predicate NoGhost(s: System, windowId: int) {
    var w := WindowOf(s.reg, windowId);
    w.field.Some? ==>
      w.field.value.tabId in s.fieldPorts && s.fieldPorts[w.field.value.tabId].windowId == windowId
  }

  predicate Live(s: System, tabId: int) {
    tabId in s.fieldPorts && Owns(WindowOf(s.reg, s.fieldPorts[tabId].windowId), tabId)
  }

  predicate BadgeTrue(s: System, h: History, tabId: int) {
    BadgeOf(s, tabId) ==
    if Live(s, tabId) && s.fieldPorts[tabId].windowId in h.lastCount
    then CountBadge(h.lastCount[s.fieldPorts[tabId].windowId])
    else Blank
  }

  predicate Counted(s: System, h: History, windowId: int) {
    FieldOf(s, windowId).Some? ==> windowId in h.lastCount
  }

  predicate Replica(s: System, h: History, windowId: int) {
    Ready(s, windowId) ==>
      && windowId in s.panelPorts && windowId in h.since
      && h.since[windowId] <= |SentTo(s, s.panelPorts[windowId])|
      && var copy := Fold(SentTo(s, s.panelPorts[windowId])[h.since[windowId]..]);
         copy == FieldOf(s, windowId) || (FieldOf(s, windowId).None? && windowId in h.orphaned)
  }

  ghost predicate Inv(s: System, h: History) {
    && Wired(s)
    && (forall t :: BadgeTrue(s, h, t))
    && (forall w :: Counted(s, h, w))
    && (forall w :: Replica(s, h, w))
  }

  // ---- Executing effects ----

  function Do(s: System, b: bool, e: Effect): System {
    if b then ExecuteOne(s, e) else s
  }

  lemma ExecuteWhen(s: System, es: seq<Effect>, b: bool, e: Effect)
    ensures Execute(s, es + When(b, e)) == Do(Execute(s, es), b, e)
  {
    if b {
      assert (es + [e])[..|es|] == es;
    } else {
      assert es + When(b, e) == es;
    }
  }

  lemma ExecuteSingle(s: System, e: Effect)
    ensures Execute(s, [e]) == ExecuteOne(s, e)
  {
    assert [e][..0] == [];
  }

  lemma ExecutePair(s: System, e1: Effect, e2: Effect)
    ensures Execute(s, [e1, e2]) == ExecuteOne(ExecuteOne(s, e1), e2)
  {
    ExecuteSingle(s, e1);
    assert [e1, e2][..1] == [e1];
  }

  lemma FoldAppend(ms: seq<PortMessage>, since: nat, m: PortMessage)
    requires since <= |ms|
    ensures Fold((ms + [m])[since..]) == FoldOne(Fold(ms[since..]), m)
  {
    var tail := (ms + [m])[since..];
    assert tail[..|tail| - 1] == ms[since..];
  }

  // ---- Changes confined to one window ----

  /** What an event in one window can do: give the window a new state, post one
      message to its panel, and set one badge. Posts to field ports are free. */
  datatype Delta = Delta(windowId: int, window: WindowState, post: Option<PortMessage>,
                         badge: Option<(int, Badge)>)

  ghost predicate Moves(s: System, s': System, d: Delta) {
    && s' == s.(reg := s'.reg, badges := s'.badges, sent := s'.sent)
    && ValidState(s'.reg)
    && (forall v :: WindowOf(s'.reg, v) == if v == d.windowId then d.window else WindowOf(s.reg, v))
    && (forall p :: p in s.panelWindow ==>
          SentTo(s', p) == if d.post.Some? && CurrentPanel(s, d.windowId, p)
                           then SentTo(s, p) + [d.post.value] else SentTo(s, p))
    && (forall t :: BadgeOf(s', t) == if d.badge.Some? && d.badge.value.0 == t
                                      then d.badge.value.1 else BadgeOf(s, t))
  }

  /** Moves, one effect at a time: starting from a new window state... */
  lemma MovesWindow(s: System, windowId: int, w: WindowState)
    requires Wired(s)
    ensures Moves(s, s.(reg := Put(s.reg, windowId, w)), Delta(windowId, w, None, None))
  {
    var s' := s.(reg := Put(s.reg, windowId, w));
    assert forall t :: BadgeOf(s', t) == BadgeOf(s, t);
    assert forall p :: SentTo(s', p) == SentTo(s, p);
  }

  lemma MovesNothing(s: System, windowId: int)
    requires Wired(s)
    ensures Moves(s, s, Delta(windowId, WindowOf(s.reg, windowId), None, None))
  {
  }

  /** ...then posting to a field port, ... */
  lemma MovesSendField(s: System, s': System, d: Delta, b: bool, e: Effect)
    requires Wired(s) && Moves(s, s', d)
    requires e.Send? && !e.to.Panel?
    ensures Moves(s, Do(s', b, e), d)
  {
    var s'' := Do(s', b, e);
    if e.tabId.Some? {
      var t := e.tabId.value;
      assert t in s.fieldPorts ==> s.fieldPorts[t].port in s.fieldOrigin;
    }
    forall p | p in s.panelWindow ensures SentTo(s'', p) == SentTo(s', p) {
    }
    forall t ensures BadgeOf(s'', t) == BadgeOf(s', t) {
    }
  }

  /** ...to the window's panel, ... */
  lemma MovesSendPanel(s: System, s': System, d: Delta, b: bool, m: Envelope)
    requires Wired(s) && Moves(s, s', d) && d.post.None?
    ensures Moves(s, Do(s', b, ToPanel(d.windowId, m)), d.(post := if b then Some(Relay(m)) else None))
  {
    var s'' := Do(s', b, ToPanel(d.windowId, m));
    forall t ensures BadgeOf(s'', t) == BadgeOf(s', t) {
    }
    forall p | p in s.panelWindow
      ensures SentTo(s'', p) == if b && CurrentPanel(s, d.windowId, p) then SentTo(s', p) + [Relay(m)] else SentTo(s', p)
    {
    }
  }

  /** ...and setting a badge. */
  lemma MovesBadge(s: System, s': System, d: Delta, b: bool, tabId: int, text: Badge)
    requires Wired(s) && Moves(s, s', d) && d.badge.None?
    ensures Moves(s, Do(s', b, SetBadge(tabId, text)), d.(badge := if b then Some((tabId, text)) else None))
  {
  }

  lemma KeepWired(s: System, s': System, d: Delta)
    requires Wired(s) && Moves(s, s', d)
    requires d.window.field.Some? ==>
      var t := d.window.field.value.tabId;
      t in s.fieldPorts && s.fieldPorts[t].windowId == d.windowId
    requires d.window.panelReady ==> d.windowId in s.panelPorts
    ensures Wired(s')
  {
    forall v ensures NoGhost(s', v) {
      assert NoGhost(s, v);
    }
    forall v | Ready(s', v) ensures v in s'.panelPorts {
      assert Ready(s, v) ==> v in s.panelPorts;
    }
  }

  lemma KeepBadges(s: System, h: History, s': System, h': History, d: Delta)
    requires Wired(s) && Moves(s, s', d)
    requires forall t :: BadgeTrue(s, h, t)
    requires forall w :: Counted(s, h, w)
    requires forall w :: w != d.windowId ==> Lookup(h'.lastCount, w) == Lookup(h.lastCount, w)
    requires d.badge.Some? ==>
      var t := d.badge.value.0;
      t in s.fieldPorts && s.fieldPorts[t].windowId == d.windowId
    requires forall t :: t in s.fieldPorts && s.fieldPorts[t].windowId == d.windowId ==> BadgeTrue(s', h', t)
    requires d.window.field.Some? ==> d.windowId in h'.lastCount
    ensures forall t :: BadgeTrue(s', h', t)
    ensures forall w :: Counted(s', h', w)
  {
    forall t ensures BadgeTrue(s', h', t) {
      assert BadgeTrue(s, h, t);
      if t in s.fieldPorts {
        var w := s.fieldPorts[t].windowId;
        assert w != d.windowId ==> Lookup(h'.lastCount, w) == Lookup(h.lastCount, w);
      }
    }
    forall w ensures Counted(s', h', w) {
      assert Counted(s, h, w);
      assert w != d.windowId ==> Lookup(h'.lastCount, w) == Lookup(h.lastCount, w);
    }
  }

  lemma KeepReplicas(s: System, h: History, s': System, h': History, d: Delta)
    requires Wired(s) && Moves(s, s', d)
    requires forall w :: Replica(s, h, w)
    requires forall w :: w != d.windowId ==>
      Lookup(h'.since, w) == Lookup(h.since, w) && (w in h.orphaned ==> w in h'.orphaned)
    requires Replica(s', h', d.windowId)
    ensures forall w :: Replica(s', h', w)
  {
    forall w ensures Replica(s', h', w) {
      if w != d.windowId {
        assert Replica(s, h, w);
        assert Lookup(h'.since, w) == Lookup(h.since, w);
        if Ready(s', w) {
          assert !CurrentPanel(s, d.windowId, s.panelPorts[w]);
        }
      }
    }
  }

  /** A ready panel that is told of the change keeps a true copy. */
  lemma ToldReplica(s: System, h: History, s': System, h': History, d: Delta)
    requires Wired(s) && Moves(s, s', d) && Replica(s, h, d.windowId)
    requires d.window.panelReady == Ready(s, d.windowId)
    requires Lookup(h'.since, d.windowId) == Lookup(h.since, d.windowId)
    requires d.window.panelReady ==>
      && d.post.Some?
      && forall copy :: (copy == FieldOf(s, d.windowId) || (FieldOf(s, d.windowId).None? && d.windowId in h.orphaned)) ==>
           FoldOne(copy, d.post.value) == FieldOf(s', d.windowId)
    ensures Replica(s', h', d.windowId)
  {
    if d.window.panelReady {
      FoldAppend(SentTo(s, s.panelPorts[d.windowId]), h.since[d.windowId], d.post.value);
    }
  }

  // ---- The registry's operations as changes of one window ----

  function ConnectDelta(s: System, windowId: int, tabId: int, info: FieldInfo): Delta {
    var w := WindowOf(s.reg, windowId);
    Delta(windowId, w.(field := Some(FieldState(tabId, info))),
          if w.panelReady then Some(Relay(FieldConnected(info))) else None,
          if w.field.Some? then Some((w.field.value.tabId, Blank)) else None)
  }

  lemma ConnectMoves(s: System, windowId: int, tabId: int, info: FieldInfo)
    requires Wired(s)
    ensures Moves(s, Apply(s, ConnectField(s.reg, windowId, tabId, info)), ConnectDelta(s, windowId, tabId, info))
  {
    var w := WindowOf(s.reg, windowId);
    var prior := if w.field.Some? then w.field.value else FieldState(tabId, info);
    var w' := w.(field := Some(FieldState(tabId, info)));
    var detach := Send(OldField, windowId, Some(prior.tabId), Ctl(Detach(prior.info.fieldId)));
    var b1 := prior.tabId != tabId;
    var s0 := s.(reg := Put(s.reg, windowId, w'));
    var s1 := Do(s0, b1, detach);
    var s2 := Do(s1, w.field.Some?, SetBadge(prior.tabId, Blank));
    MovesWindow(s, windowId, w');
    var d := Delta(windowId, w', None, None);
    MovesSendField(s, s0, d, b1, detach);
    MovesBadge(s, s1, d, w.field.Some?, prior.tabId, Blank);
    var d2 := d.(badge := if w.field.Some? then Some((prior.tabId, Blank)) else None);
    MovesSendPanel(s, s2, d2, w.panelReady, FieldConnected(info));
    ExecuteWhen(s0, [], b1, detach);
    assert [] + When(b1, detach) == When(b1, detach);
    ExecuteWhen(s0, When(b1, detach), w.field.Some?, SetBadge(prior.tabId, Blank));
    ExecuteWhen(s0, When(b1, detach) + When(w.field.Some?, SetBadge(prior.tabId, Blank)),
                w.panelReady, ToPanel(windowId, FieldConnected(info)));
  }

  /** Telling the panel and, when the field goes, clearing its badge: the shape
      shared by text changes, relays and both kinds of disconnect. */
  lemma RelayMoves(s: System, windowId: int, w': WindowState, tell: bool, m: Envelope, clears: bool, tabId: int)
    requires Wired(s)
    ensures Moves(s, Apply(s, (Put(s.reg, windowId, w'), When(tell, ToPanel(windowId, m)) + When(clears, SetBadge(tabId, Blank)))),
                  Delta(windowId, w', if tell then Some(Relay(m)) else None,
                        if clears then Some((tabId, Blank)) else None))
  {
    var s0 := s.(reg := Put(s.reg, windowId, w'));
    var d := Delta(windowId, w', None, None);
    var s1 := Do(s0, tell, ToPanel(windowId, m));
    MovesWindow(s, windowId, w');
    MovesSendPanel(s, s0, d, tell, m);
    MovesBadge(s, s1, d.(post := if tell then Some(Relay(m)) else None), clears, tabId, Blank);
    ExecuteWhen(s0, [], tell, ToPanel(windowId, m));
    assert [] + When(tell, ToPanel(windowId, m)) == When(tell, ToPanel(windowId, m));
    ExecuteWhen(s0, When(tell, ToPanel(windowId, m)), clears, SetBadge(tabId, Blank));
  }

  lemma FieldGoneMoves(s: System, windowId: int, tabId: int)
    requires Wired(s) && Owns(WindowOf(s.reg, windowId), tabId)
    ensures var w := WindowOf(s.reg, windowId);
            Moves(s, Apply(s, DropFieldPort(s.reg, windowId, tabId)),
                  Delta(windowId, w.(field := None),
                        if w.panelReady then Some(Relay(FieldDisconnected(w.field.value.info.fieldId))) else None,
                        Some((tabId, Blank))))
  {
    var w := WindowOf(s.reg, windowId);
    RelayMoves(s, windowId, w.(field := None), w.panelReady,
               FieldDisconnected(w.field.value.info.fieldId), true, tabId);
  }

  lemma ChangeTextMoves(s: System, windowId: int, tabId: int, m: Envelope)
    requires Wired(s) && m.TextChanged? && Owns(WindowOf(s.reg, windowId), tabId)
    ensures var w := WindowOf(s.reg, windowId);
            var f := w.field.value;
            Moves(s, Apply(s, ChangeText(s.reg, windowId, tabId, m)),
                  Delta(windowId, w.(field := Some(f.(info := f.info.(text := m.text)))),
                        if w.panelReady then Some(Relay(m)) else None, None))
  {
    var w := WindowOf(s.reg, windowId);
    var f := w.field.value;
    RelayMoves(s, windowId, w.(field := Some(f.(info := f.info.(text := m.text)))), w.panelReady, m, false, tabId);
    assert When(w.panelReady, ToPanel(windowId, m)) + When(false, SetBadge(tabId, Blank))
        == When(w.panelReady, ToPanel(windowId, m));
  }

  lemma HostRelayMoves(s: System, windowId: int, tabId: int, m: Envelope)
    requires Wired(s) && Owns(WindowOf(s.reg, windowId), tabId)
    ensures var w := WindowOf(s.reg, windowId);
            Moves(s, Apply(s, RelayFromHost(s.reg, windowId, tabId, m)),
                  Delta(windowId, if m.FieldDisconnected? then w.(field := None) else w,
                        if w.panelReady then Some(Relay(m)) else None,
                        if m.FieldDisconnected? then Some((tabId, Blank)) else None))
  {
    var w := WindowOf(s.reg, windowId);
    if m.FieldDisconnected? {
      RelayMoves(s, windowId, w.(field := None), w.panelReady, m, true, tabId);
    } else {
      MovesNothing(s, windowId);
      MovesSendPanel(s, s, Delta(windowId, w, None, None), w.panelReady, m);
      ExecuteWhen(s, [], w.panelReady, ToPanel(windowId, m));
      assert [] + When(w.panelReady, ToPanel(windowId, m)) == When(w.panelReady, ToPanel(windowId, m));
    }
  }

  lemma EmbedRelayMoves(s: System, windowId: int, m: Envelope)
    requires Wired(s)
    ensures var w := WindowOf(s.reg, windowId);
            Moves(s, Execute(s, RelayFromEmbed(s.reg, windowId, m)),
                  Delta(windowId, w, None,
                        if w.field.Some? && m.Status?
                        then Some((w.field.value.tabId, CountBadge(m.findingCount))) else None))
  {
    var w := WindowOf(s.reg, windowId);
    var d := Delta(windowId, w, None, None);
    MovesNothing(s, windowId);
    if w.field.Some? {
      var es := RelayFromEmbed(s.reg, windowId, m);
      if m.Status? {
        MovesBadge(s, s, d, true, w.field.value.tabId, CountBadge(m.findingCount));
        MovesSendField(s, ExecuteOne(s, es[0]), d.(badge := Some((w.field.value.tabId, CountBadge(m.findingCount)))), true, es[1]);
        ExecutePair(s, es[0], es[1]);
      } else {
        MovesSendField(s, s, d, true, es[0]);
        ExecuteSingle(s, es[0]);
      }
    }
  }

  lemma PanelReadyMoves(s: System, windowId: int, ready: bool)
    requires Wired(s)
    ensures var w := WindowOf(s.reg, windowId);
            Moves(s, Apply(s, SetPanelReady(s.reg, windowId, ready)),
                  Delta(windowId, w.(panelReady := ready),
                        if ready && !w.panelReady && w.field.Some?
                        then Some(Relay(FieldConnected(w.field.value.info))) else None, None))
  {
    var w := WindowOf(s.reg, windowId);
    var s0 := s.(reg := Put(s.reg, windowId, w.(panelReady := ready)));
    MovesWindow(s, windowId, w.(panelReady := ready));
    if ready && !w.panelReady && w.field.Some? {
      var m := FieldConnected(w.field.value.info);
      MovesSendPanel(s, s0, Delta(windowId, w.(panelReady := ready), None, None), true, m);
      ExecuteSingle(s0, ToPanel(windowId, m));
    }
  }

  // ---- One lemma per kind of event ----

  /** A change confined to one window keeps the invariant when that window,
      its tabs' badges and its panel's copy are right afterwards. */
  lemma KeepAll(s: System, h: History, s': System, h': History, d: Delta)
    requires Inv(s, h) && Moves(s, s', d)
    requires forall w :: w != d.windowId ==>
      && Lookup(h'.lastCount, w) == Lookup(h.lastCount, w)
      && Lookup(h'.since, w) == Lookup(h.since, w)
      && (w in h.orphaned ==> w in h'.orphaned)
    requires d.window.field.Some? ==>
      && d.window.field.value.tabId in s.fieldPorts
      && s.fieldPorts[d.window.field.value.tabId].windowId == d.windowId
      && d.windowId in h'.lastCount
    requires d.window.panelReady ==> d.windowId in s.panelPorts
    requires d.badge.Some? ==>
      d.badge.value.0 in s.fieldPorts && s.fieldPorts[d.badge.value.0].windowId == d.windowId
    requires forall t | t in s.fieldPorts && s.fieldPorts[t].windowId == d.windowId ::
               BadgeTrue(s, h, t) ==> BadgeTrue(s', h', t)
    requires Replica(s', h', d.windowId)
    ensures Inv(s', h')
  {
    KeepWired(s, s', d);
    forall t | t in s.fieldPorts && s.fieldPorts[t].windowId == d.windowId ensures BadgeTrue(s', h', t) {
      assert BadgeTrue(s, h, t);
    }
    KeepBadges(s, h, s', h', d);
    KeepReplicas(s, h, s', h', d);
  }

  lemma LocalFacts(s: System, h: History, windowId: int)
    requires Inv(s, h)
    ensures NoGhost(s, windowId) && Counted(s, h, windowId) && Replica(s, h, windowId)
    ensures Ready(s, windowId) ==> windowId in s.panelPorts
  {
  }

  lemma KeepsFieldGone(s: System, h: History, windowId: int, tabId: int)
    requires Inv(s, h) && tabId in s.fieldPorts && s.fieldPorts[tabId].windowId == windowId
    ensures var s' := Apply(s, DropFieldPort(s.reg, windowId, tabId));
            Inv(s', h) && !Live(s', tabId) && s' == s.(reg := s'.reg, badges := s'.badges, sent := s'.sent)
  {
    var w := WindowOf(s.reg, windowId);
    if Owns(w, tabId) {
      var s' := Apply(s, DropFieldPort(s.reg, windowId, tabId));
      var d := Delta(windowId, w.(field := None),
                     if w.panelReady then Some(Relay(FieldDisconnected(w.field.value.info.fieldId))) else None,
                     Some((tabId, Blank)));
      FieldGoneMoves(s, windowId, tabId);
      LocalFacts(s, h, windowId);
      ToldReplica(s, h, s', h, d);
      KeepAll(s, h, s', h, d);
    }
  }

  /** Opening or closing the port of a tab that is no window's field. */
  lemma KeepsPortChange(s: System, s': System, h: History, tabId: int)
    requires Inv(s, h) && !Live(s, tabId)
    requires s' == s.(fieldPorts := s'.fieldPorts, fieldOrigin := s'.fieldOrigin)
    requires forall t :: t != tabId ==> Lookup(s'.fieldPorts, t) == Lookup(s.fieldPorts, t)
    requires forall p :: p in s'.fieldOrigin ==> p !in s'.panelWindow
    requires forall t :: t in s'.fieldPorts ==>
      && s'.fieldPorts[t].port in s'.fieldOrigin
      && s'.fieldOrigin[s'.fieldPorts[t].port] == Origin(t, s'.fieldPorts[t].windowId)
    ensures Inv(s', h)
  {
    forall w ensures NoGhost(s', w) && Counted(s', h, w) && Replica(s', h, w) {
      LocalFacts(s, h, w);
      var st := WindowOf(s.reg, w);
      if st.field.Some? {
        var t := st.field.value.tabId;
        assert t != tabId ==> Lookup(s'.fieldPorts, t) == Lookup(s.fieldPorts, t);
      }
    }
    forall t ensures BadgeTrue(s', h, t) {
      assert BadgeTrue(s, h, t);
      assert t != tabId ==> Lookup(s'.fieldPorts, t) == Lookup(s.fieldPorts, t);
      if t == tabId && t in s'.fieldPorts {
        LocalFacts(s, h, s'.fieldPorts[t].windowId);
      }
    }
    forall w | Ready(s', w) ensures w in s'.panelPorts {
      LocalFacts(s, h, w);
    }
  }

  lemma KeepsFieldConnect(s: System, h: History, port: int, sender: Option<Origin>)
    requires Inv(s, h) && Enabled(s, FieldConnect(port, sender))
    ensures Inv(OnFieldConnect(s, port, sender), h)
  {
    if sender.Some? {
      var t := sender.value.tabId;
      var s1 := s;
      if t in s.fieldPorts {
        assert s.fieldPorts[t].port in s.fieldOrigin;
        KeepsFieldGone(s, h, s.fieldPorts[t].windowId, t);
        s1 := Apply(s, DropFieldPort(s.reg, s.fieldPorts[t].windowId, t));
      }
      var s' := OnFieldConnect(s, port, sender);
      assert s' == s1.(fieldPorts := s1.fieldPorts[t := FieldPort(port, sender.value.windowId)],
                       fieldOrigin := s1.fieldOrigin[port := sender.value]);
      KeepsPortChange(s1, s', h, t);
    }
  }

  lemma KeepsConnect(s: System, h: History, windowId: int, tabId: int, info: FieldInfo)
    requires Inv(s, h) && tabId in s.fieldPorts && s.fieldPorts[tabId].windowId == windowId
    ensures Inv(Apply(s, ConnectField(s.reg, windowId, tabId, info)),
                h.(lastCount := h.lastCount[windowId := 0], orphaned := h.orphaned - {windowId}))
  {
    ConnectMoves(s, windowId, tabId, info);
    KeepsConnected(s, h, Apply(s, ConnectField(s.reg, windowId, tabId, info)), windowId, tabId, info);
  }

  lemma KeepsConnected(s: System, h: History, s': System, windowId: int, tabId: int, info: FieldInfo)
    requires Inv(s, h) && tabId in s.fieldPorts && s.fieldPorts[tabId].windowId == windowId
    requires Moves(s, s', ConnectDelta(s, windowId, tabId, info))
    ensures Inv(s', h.(lastCount := h.lastCount[windowId := 0], orphaned := h.orphaned - {windowId}))
  {
    var h' := h.(lastCount := h.lastCount[windowId := 0], orphaned := h.orphaned - {windowId});
    var d := ConnectDelta(s, windowId, tabId, info);
    LocalFacts(s, h, windowId);
    ToldReplica(s, h, s', h', d);
    KeepAll(s, h, s', h', d);
  }

  /** Text changes and the relays of a live field. */
  lemma KeepsHostMessage(s: System, h: History, windowId: int, tabId: int, m: Envelope)
    requires Inv(s, h) && tabId in s.fieldPorts && s.fieldPorts[tabId].windowId == windowId
    requires !m.FieldConnected?
    ensures Inv(if m.TextChanged? then Apply(s, ChangeText(s.reg, windowId, tabId, m))
                else Apply(s, RelayFromHost(s.reg, windowId, tabId, m)), h)
  {
    var w := WindowOf(s.reg, windowId);
    if Owns(w, tabId) {
      LocalFacts(s, h, windowId);
      var post := if w.panelReady then Some(Relay(m)) else None;
      if m.TextChanged? {
        var s' := Apply(s, ChangeText(s.reg, windowId, tabId, m));
        var f := w.field.value;
        var d := Delta(windowId, w.(field := Some(f.(info := f.info.(text := m.text)))), post, None);
        ChangeTextMoves(s, windowId, tabId, m);
        ToldReplica(s, h, s', h, d);
        KeepAll(s, h, s', h, d);
      } else {
        var s' := Apply(s, RelayFromHost(s.reg, windowId, tabId, m));
        var d := Delta(windowId, if m.FieldDisconnected? then w.(field := None) else w, post,
                       if m.FieldDisconnected? then Some((tabId, Blank)) else None);
        HostRelayMoves(s, windowId, tabId, m);
        ToldReplica(s, h, s', h, d);
        KeepAll(s, h, s', h, d);
      }
    }
  }

  lemma KeepsFieldDisconnect(s: System, h: History, port: int)
    requires Inv(s, h) && port in s.fieldOrigin
    ensures Inv(OnFieldDisconnect(s, port), h)
  {
    var Origin(tabId, windowId) := s.fieldOrigin[port];
    if CurrentField(s, tabId, port) {
      assert s.fieldPorts[tabId].port in s.fieldOrigin;
      KeepsFieldGone(s, h, windowId, tabId);
      DropCommutes(s, windowId, tabId);
      KeepsPortChange(Apply(s, DropFieldPort(s.reg, windowId, tabId)), OnFieldDisconnect(s, port), h, tabId);
    }
  }

  lemma ExecuteGone(s: System, tell: bool, gone: Effect, tabId: int)
    ensures Execute(s, When(tell, gone) + [SetBadge(tabId, Blank)])
            == ExecuteOne(Do(s, tell, gone), SetBadge(tabId, Blank))
  {
    ExecuteWhen(s, [], tell, gone);
    assert [] + When(tell, gone) == When(tell, gone);
    ExecuteWhen(s, When(tell, gone), true, SetBadge(tabId, Blank));
  }

  /** Effects that name no field port do not see which there are. */
  lemma PortsApart(s: System, ports: map<int, FieldPort>, tell: bool, windowId: int, m: Envelope, tabId: int)
    ensures ExecuteOne(Do(s.(fieldPorts := ports), tell, ToPanel(windowId, m)), SetBadge(tabId, Blank))
            == ExecuteOne(Do(s, tell, ToPanel(windowId, m)), SetBadge(tabId, Blank)).(fieldPorts := ports)
  {
  }

  /** Dropping a field posts nothing to field ports, so the source's order
      (delete the port, then run the effects) may be exchanged. */
  lemma DropCommutes(s: System, windowId: int, tabId: int)
    ensures var ports := s.fieldPorts - {tabId};
            Apply(s.(fieldPorts := ports), DropFieldPort(s.reg, windowId, tabId))
            == Apply(s, DropFieldPort(s.reg, windowId, tabId)).(fieldPorts := ports)
  {
    var w, ports := WindowOf(s.reg, windowId), s.fieldPorts - {tabId};
    if Owns(w, tabId) {
      var m := FieldDisconnected(w.field.value.info.fieldId);
      var s0 := s.(reg := DropFieldPort(s.reg, windowId, tabId).0);
      ExecuteGone(s0, w.panelReady, ToPanel(windowId, m), tabId);
      ExecuteGone(s0.(fieldPorts := ports), w.panelReady, ToPanel(windowId, m), tabId);
      PortsApart(s0, ports, w.panelReady, windowId, m, tabId);
    }
  }

  /** A step that leaves the registry, the ports and what panels received. */
  lemma KeepsInert(s: System, s': System, h: History)
    requires Inv(s, h)
    requires s' == s.(sent := s'.sent, panelWindow := s'.panelWindow)
    requires forall p :: p in s.panelWindow ==> p in s'.panelWindow && s'.panelWindow[p] == s.panelWindow[p]
    requires forall p :: p in s'.fieldOrigin ==> p !in s'.panelWindow
    requires forall p :: p in s.panelWindow ==> SentTo(s', p) == SentTo(s, p)
    ensures Inv(s', h)
  {
    forall w ensures NoGhost(s', w) && Counted(s', h, w) && Replica(s', h, w) {
      LocalFacts(s, h, w);
    }
    forall t ensures BadgeTrue(s', h, t) {
      assert BadgeTrue(s, h, t);
    }
    forall w | Ready(s', w) ensures w in s'.panelPorts {
      LocalFacts(s, h, w);
    }
    forall w | w in s'.panelPorts
      ensures s'.panelPorts[w] in s'.panelWindow && s'.panelWindow[s'.panelPorts[w]] == Some(w) {
      var p := s.panelPorts[w];
      assert p in s.panelWindow && s.panelWindow[p] == Some(w);
      assert p in s'.panelWindow && s'.panelWindow[p] == s.panelWindow[p];
    }
  }

  lemma KeepsOpenPanelFailed(s: System, h: History, port: int)
    requires Inv(s, h) && port in s.fieldOrigin
    ensures Inv(OnOpenPanelFailed(s, port), h)
  {
    var s' := OnOpenPanelFailed(s, port);
    assert forall p :: p in s.panelWindow ==> SentTo(s', p) == SentTo(s, p);
    KeepsInert(s, s', h);
  }

  lemma KeepsUnready(s: System, h: History, windowId: int)
    requires Inv(s, h)
    ensures var s' := Apply(s, SetPanelReady(s.reg, windowId, false));
            Inv(s', h) && !Ready(s', windowId) && s' == s.(reg := SetPanelReady(s.reg, windowId, false).0)
  {
    var w := WindowOf(s.reg, windowId);
    var s' := Apply(s, SetPanelReady(s.reg, windowId, false));
    PanelReadyMoves(s, windowId, false);
    LocalFacts(s, h, windowId);
    KeepAll(s, h, s', h, Delta(windowId, w.(panelReady := false), None, None));
  }

  /** Registering a panel port for a window that is not ready. */
  lemma KeepsPanelPort(s: System, h: History, port: int, windowId: int)
    requires Inv(s, h) && !Ready(s, windowId) && port in s.panelWindow && s.panelWindow[port].None?
    ensures Inv(s.(panelWindow := s.panelWindow[port := Some(windowId)],
                   panelPorts := s.panelPorts[windowId := port]), h)
  {
    var s' := s.(panelWindow := s.panelWindow[port := Some(windowId)],
                 panelPorts := s.panelPorts[windowId := port]);
    forall w ensures NoGhost(s', w) && Counted(s', h, w) && Replica(s', h, w) {
      LocalFacts(s, h, w);
    }
    forall t ensures BadgeTrue(s', h, t) {
      assert BadgeTrue(s, h, t);
    }
    forall w | Ready(s', w) ensures w in s'.panelPorts {
      LocalFacts(s, h, w);
    }
    forall w | w in s'.panelPorts
      ensures s'.panelPorts[w] in s'.panelWindow && s'.panelWindow[s'.panelPorts[w]] == Some(w) {
      if w != windowId {
        assert w in s.panelPorts;
        assert s.panelPorts[w] in s.panelWindow && s.panelWindow[s.panelPorts[w]] == Some(w);
        assert s'.panelPorts[w] == s.panelPorts[w] != port;
      }
    }
  }

  lemma KeepsPanelHello(s: System, h: History, port: int, windowId: int)
    requires Inv(s, h) && port in s.panelWindow && s.panelWindow[port].None?
    ensures Inv(OnPanelHello(s, port, windowId), h)
  {
    LocalFacts(s, h, windowId);
    var s1 := s;
    if windowId in s.panelPorts {
      assert s.panelWindow[s.panelPorts[windowId]].Some?;
      KeepsUnready(s, h, windowId);
      s1 := Apply(s, SetPanelReady(s.reg, windowId, false));
    }
    KeepsPanelPort(s1, h, port, windowId);
  }

  function ReadyDelta(s: System, windowId: int): Delta {
    var w := WindowOf(s.reg, windowId);
    Delta(windowId, w.(panelReady := true),
          if w.field.Some? then Some(Relay(FieldConnected(w.field.value.info))) else None, None)
  }

  /** From its ready edge on, the panel has been sent the field, if any. */
  lemma ReadyReplica(s: System, s': System, h': History, port: int, windowId: int)
    requires Wired(s) && CurrentPanel(s, windowId, port) && Moves(s, s', ReadyDelta(s, windowId))
    requires Lookup(h'.since, windowId) == Some(|SentTo(s, port)|)
    ensures Replica(s', h', windowId)
  {
    var before := SentTo(s, port);
    assert before[|before|..] == [];
    var d := ReadyDelta(s, windowId);
    if d.post.Some? {
      FoldAppend(before, |before|, d.post.value);
    }
  }

  lemma KeepsReady(s: System, h: History, port: int, windowId: int)
    requires Inv(s, h) && CurrentPanel(s, windowId, port) && !Ready(s, windowId)
    ensures Inv(Apply(s, SetPanelReady(s.reg, windowId, true)),
                h.(since := h.since[windowId := |SentTo(s, port)|], orphaned := h.orphaned - {windowId}))
  {
    var s' := Apply(s, SetPanelReady(s.reg, windowId, true));
    var h' := h.(since := h.since[windowId := |SentTo(s, port)|], orphaned := h.orphaned - {windowId});
    PanelReadyMoves(s, windowId, true);
    LocalFacts(s, h, windowId);
    ReadyReplica(s, s', h', port, windowId);
    KeepAll(s, h, s', h', ReadyDelta(s, windowId));
  }

  lemma KeepsReadyAgain(s: System, h: History, windowId: int)
    requires Inv(s, h) && Ready(s, windowId)
    ensures Inv(Apply(s, SetPanelReady(s.reg, windowId, true)), h)
  {
    var w := WindowOf(s.reg, windowId);
    var s' := Apply(s, SetPanelReady(s.reg, windowId, true));
    PanelReadyMoves(s, windowId, true);
    LocalFacts(s, h, windowId);
    KeepAll(s, h, s', h, Delta(windowId, w, None, None));
  }

  lemma KeepsStatus(s: System, h: History, windowId: int, m: Envelope)
    requires Inv(s, h) && m.Status? && FieldOf(s, windowId).Some?
    ensures Inv(Execute(s, RelayFromEmbed(s.reg, windowId, m)),
                h.(lastCount := h.lastCount[windowId := m.findingCount]))
  {
    var w := WindowOf(s.reg, windowId);
    var d := Delta(windowId, w, None, Some((w.field.value.tabId, CountBadge(m.findingCount))));
    EmbedRelayMoves(s, windowId, m);
    LocalFacts(s, h, windowId);
    KeepAll(s, h, Execute(s, RelayFromEmbed(s.reg, windowId, m)),
            h.(lastCount := h.lastCount[windowId := m.findingCount]), d);
  }

  lemma KeepsEmbedMessage(s: System, h: History, windowId: int, m: Envelope)
    requires Inv(s, h) && (m.Status? ==> FieldOf(s, windowId).None?)
    ensures Inv(Execute(s, RelayFromEmbed(s.reg, windowId, m)), h)
  {
    EmbedRelayMoves(s, windowId, m);
    LocalFacts(s, h, windowId);
    KeepAll(s, h, Execute(s, RelayFromEmbed(s.reg, windowId, m)), h,
            Delta(windowId, WindowOf(s.reg, windowId), None, None));
  }

  lemma KeepsDisconnectRequest(s: System, h: History, windowId: int)
    requires Inv(s, h)
    ensures Inv(Execute(s, RequestDisconnect(s.reg, windowId)), h)
  {
    var w := WindowOf(s.reg, windowId);
    if w.field.Some? {
      var e := RequestDisconnect(s.reg, windowId)[0];
      var d := Delta(windowId, w, None, None);
      MovesNothing(s, windowId);
      MovesSendField(s, s, d, true, e);
      ExecuteSingle(s, e);
      LocalFacts(s, h, windowId);
      KeepAll(s, h, ExecuteOne(s, e), h, d);
    }
  }

  lemma KeepsPanelDisconnect(s: System, h: History, port: int)
    requires Inv(s, h) && port in s.panelWindow
    ensures Inv(OnPanelDisconnect(s, port), h)
  {
    var home := s.panelWindow[port];
    if home.Some? && CurrentPanel(s, home.value, port) {
      var s' := OnPanelDisconnect(s, port);
      forall w ensures WindowOf(s'.reg, w) ==
          if w == home.value then WindowOf(s.reg, w).(panelReady := false) else WindowOf(s.reg, w) {
      }
      forall w ensures NoGhost(s', w) && Counted(s', h, w) && Replica(s', h, w) {
        LocalFacts(s, h, w);
      }
      forall t ensures BadgeTrue(s', h, t) {
        assert BadgeTrue(s, h, t);
      }
      forall w | Ready(s', w) ensures w in s'.panelPorts {
        LocalFacts(s, h, w);
      }
    }
  }

  // ---- The server change ----

  lemma ExecuteOneIgnoresRegistry(s: System, r: RegistryState, e: Effect)
    ensures ExecuteOne(s.(reg := r), e) == ExecuteOne(s, e).(reg := r)
  {
    match e
    case SetBadge(_, _) =>
    case Send(to, windowId, tabId, m) =>
      if to.Panel? {
        if windowId in s.panelPorts {
          PostIgnoresRegistry(s, r, s.panelPorts[windowId], m);
        }
      } else if tabId.Some? && tabId.value in s.fieldPorts {
        PostIgnoresRegistry(s, r, s.fieldPorts[tabId.value].port, m);
      }
  }

  lemma PostIgnoresRegistry(s: System, r: RegistryState, port: int, m: PortMessage)
    ensures Post(s.(reg := r), port, m) == Post(s, port, m).(reg := r)
  {
  }

  lemma {:induction false} ExecuteIgnoresRegistry(s: System, r: RegistryState, es: seq<Effect>)
    ensures Execute(s.(reg := r), es) == Execute(s, es).(reg := r)
  {
    if es != [] {
      var init := es[..|es| - 1];
      ExecuteIgnoresRegistry(s, r, init);
      ExecuteOneIgnoresRegistry(Execute(s, init), r, es[|es| - 1]);
    }
  }

  predicate OwnedBefore(r: RegistryState, n: nat, tabId: int)
    requires n <= |r.order|
  {
    exists i :: 0 <= i < n && Owns(WindowOf(r, r.order[i]), tabId)
  }

  /** What the first n windows' effects did: cleared their tabs' badges and
      posted to no panel. */
  ghost predicate Dropped(s: System, s': System, n: nat)
    requires n <= |s.reg.order|
  {
    && s' == s.(badges := s'.badges, sent := s'.sent)
    && (forall p :: p in s.panelWindow ==> SentTo(s', p) == SentTo(s, p))
    && (forall t :: BadgeOf(s', t) == if OwnedBefore(s.reg, n, t) then Blank else BadgeOf(s, t))
  }

  lemma DropOne(s: System, s1: System, n: nat)
    requires Wired(s) && 0 < n <= |s.reg.order| && Dropped(s, s1, n - 1)
    requires WindowOf(s.reg, s.reg.order[n - 1]).field.Some?
    ensures var es := DropEffects(s.reg.order[n - 1], WindowOf(s.reg, s.reg.order[n - 1]));
            Dropped(s, ExecuteOne(ExecuteOne(s1, es[0]), es[1]), n)
  {
    var id := s.reg.order[n - 1];
    var w := WindowOf(s.reg, id);
    var f := w.field.value;
    var es := DropEffects(id, w);
    assert NoGhost(s, id);
    var port := s.fieldPorts[f.tabId].port;
    assert port in s.fieldOrigin;
    var s2 := ExecuteOne(s1, es[0]);
    var s' := ExecuteOne(s2, es[1]);
    forall t ensures BadgeOf(s', t) == if OwnedBefore(s.reg, n, t) then Blank else BadgeOf(s, t) {
      assert OwnedBefore(s.reg, n, t) <==> OwnedBefore(s.reg, n - 1, t) || Owns(w, t);
      assert BadgeOf(s1, t) == if OwnedBefore(s.reg, n - 1, t) then Blank else BadgeOf(s, t);
    }
    forall p | p in s.panelWindow ensures SentTo(s', p) == SentTo(s, p) {
      assert p != port;
      assert SentTo(s1, p) == SentTo(s, p);
    }
  }

  lemma {:induction false} DropFirstEffects(s: System, n: nat)
    requires Wired(s) && n <= |s.reg.order|
    ensures Dropped(s, Execute(s, DropFirst(s.reg, n).1), n)
  {
    if n > 0 {
      DropFirstEffects(s, n - 1);
      var es := DropFirst(s.reg, n - 1).1;
      var s1 := Execute(s, es);
      var id := s.reg.order[n - 1];
      var w := WindowOf(s.reg, id);
      if w.field.Some? {
        var drops := DropEffects(id, w);
        DropOne(s, s1, n);
        assert DropFirst(s.reg, n).1 == es + When(true, drops[0]) + When(true, drops[1]);
        ExecuteWhen(s, es, true, drops[0]);
        ExecuteWhen(s, es + When(true, drops[0]), true, drops[1]);
      } else {
        assert DropFirst(s.reg, n).1 == es;
        assert forall t :: OwnedBefore(s.reg, n, t) <==> OwnedBefore(s.reg, n - 1, t);
      }
    }
  }

  /** A server change takes every field, blanks exactly the live tabs' badges,
      keeps every panel's readiness and tells no panel. */
  lemma ServerChangeEffects(s: System)
    requires Wired(s)
    ensures var s' := Step(s, ServerUrlChanged);
            && s' == s.(reg := s'.reg, badges := s'.badges, sent := s'.sent)
            && ValidState(s'.reg)
            && (forall w :: WindowOf(s'.reg, w) == WindowOf(s.reg, w).(field := None))
            && (forall p :: p in s.panelWindow ==> SentTo(s', p) == SentTo(s, p))
            && (forall t :: BadgeOf(s', t) == if Live(s, t) then Blank else BadgeOf(s, t))
  {
    DropAllFieldsWindows(s.reg);
    var (r', es) := DropAllFields(s.reg);
    ExecuteIgnoresRegistry(s, r', es);
    DropFirstEffects(s, |s.reg.order|);
    var s1 := Execute(s, es);
    forall t ensures OwnedBefore(s.reg, |s.reg.order|, t) <==> Live(s, t) {
      if Live(s, t) {
        var w := s.fieldPorts[t].windowId;
        assert w in s.reg.order;
        var i :| 0 <= i < |s.reg.order| && s.reg.order[i] == w;
        assert Owns(WindowOf(s.reg, s.reg.order[i]), t);
      }
      if OwnedBefore(s.reg, |s.reg.order|, t) {
        var i :| 0 <= i < |s.reg.order| && Owns(WindowOf(s.reg, s.reg.order[i]), t);
        assert NoGhost(s, s.reg.order[i]);
      }
    }
    var s' := Step(s, ServerUrlChanged);
    assert s' == s1.(reg := r');
    assert forall t :: BadgeOf(s', t) == BadgeOf(s1, t);
    assert forall p :: SentTo(s', p) == SentTo(s1, p);
  }

  lemma KeepsServerChange(s: System, h: History)
    requires Inv(s, h)
    ensures Inv(Step(s, ServerUrlChanged), Observe(s, ServerUrlChanged, h))
  {
    var s', h' := Step(s, ServerUrlChanged), Observe(s, ServerUrlChanged, h);
    ServerChangeEffects(s);
    forall w ensures NoGhost(s', w) && Counted(s', h', w) && Replica(s', h', w) {
      LocalFacts(s, h, w);
      assert FieldOf(s, w).Some? ==> w in s.reg.windows;
    }
    forall t ensures BadgeTrue(s', h', t) {
      assert BadgeTrue(s, h, t);
    }
    forall w | Ready(s', w) ensures w in s'.panelPorts {
      LocalFacts(s, h, w);
    }
  }

  // ---- Every step, every run ----

  lemma ObserveQuiet(s: System, e: Event, h: History)
    requires Enabled(s, e) && !e.ServerUrlChanged?
    requires ReadyEdge(s, e).None? && Connects(s, e).None? && Reports(s, e).None?
    ensures Observe(s, e, h) == h
  {
    assert Observe(s, e, h).orphaned == h.orphaned;
  }

  lemma FieldMessageKeeps(s: System, h: History, e: Event)
    requires Inv(s, h) && Enabled(s, e) && e.FieldMessage?
    ensures Inv(Step(s, e), Observe(s, e, h))
  {
    var Origin(tabId, windowId) := s.fieldOrigin[e.port];
    assert tabId in s.fieldPorts ==> s.fieldPorts[tabId].port in s.fieldOrigin;
    if Connects(s, e).Some? {
      KeepsConnect(s, h, windowId, tabId, e.data.value.envelope.info);
      assert Observe(s, e, h).orphaned == h.orphaned - {windowId};
    } else {
      ObserveQuiet(s, e, h);
      if CurrentField(s, tabId, e.port) && e.data.Some? && e.data.value.Relay? {
        KeepsHostMessage(s, h, windowId, tabId, e.data.value.envelope);
      }
    }
  }

  lemma PanelMessageKeeps(s: System, h: History, e: Event)
    requires Inv(s, h) && Enabled(s, e) && e.PanelMessage?
    ensures Inv(Step(s, e), Observe(s, e, h))
  {
    var home := s.panelWindow[e.port];
    if ReadyEdge(s, e).Some? {
      KeepsReady(s, h, e.port, home.value);
      assert Observe(s, e, h).orphaned == h.orphaned - {home.value};
    } else if Reports(s, e).Some? {
      KeepsStatus(s, h, home.value, e.data.value.envelope);
      assert Observe(s, e, h).orphaned == h.orphaned;
    } else {
      ObserveQuiet(s, e, h);
      if e.data.Some? && e.data.value.Ctl? && e.data.value.ctl.PanelHello? {
        KeepsPanelHello(s, h, e.port, e.data.value.ctl.windowId);
      } else if e.data.Some? && home.Some? && CurrentPanel(s, home.value, e.port) {
        var m := e.data.value;
        if m.Relay? {
          KeepsEmbedMessage(s, h, home.value, m.envelope);
        } else if m.ctl.EmbedReady? {
          if m.ctl.ready { KeepsReadyAgain(s, h, home.value); } else { KeepsUnready(s, h, home.value); }
        } else if m.ctl.Disconnect? {
          KeepsDisconnectRequest(s, h, home.value);
        }
      }
    }
  }

  lemma StepKeeps(s: System, h: History, e: Event)
    requires Inv(s, h) && Enabled(s, e)
    ensures Inv(Step(s, e), Observe(s, e, h))
  {
    if !e.FieldMessage? && !e.PanelMessage? && !e.ServerUrlChanged? {
      ObserveQuiet(s, e, h);
    }
    match e
    case FieldConnect(port, sender) => KeepsFieldConnect(s, h, port, sender);
    case FieldMessage(port, data) => FieldMessageKeeps(s, h, e);
    case FieldDisconnect(port) => KeepsFieldDisconnect(s, h, port);
    case OpenPanelFailed(port) => KeepsOpenPanelFailed(s, h, port);
    case PanelConnect(port) => KeepsInert(s, Step(s, e), h);
    case PanelMessage(port, data) => PanelMessageKeeps(s, h, e);
    case PanelDisconnect(port) => KeepsPanelDisconnect(s, h, port);
    case ServerUrlChanged => KeepsServerChange(s, h);
  }

  /** The state and history after a run, or None if some event could not occur. */
  function After(events: seq<Event>): Option<(System, History)> {
    if events == [] then Some((INITIAL, NO_HISTORY))
    else
      var e := events[|events| - 1];
      match After(events[..|events| - 1])
      case None => None
      case Some((s, h)) => if Enabled(s, e) then Some((Step(s, e), Observe(s, e, h))) else None
  }

  lemma {:induction false} RunKeeps(events: seq<Event>)
    requires After(events).Some?
    ensures Inv(After(events).value.0, After(events).value.1)
  {
    if events != [] {
      RunKeeps(events[..|events| - 1]);
      var (s, h) := After(events[..|events| - 1]).value;
      StepKeeps(s, h, events[|events| - 1]);
    }
  }

  // ---- What events do to the ports ----

  /** What an event does to the ports, whatever effects it executes. */
  function PortsAfter(s: System, e: Event): System
    requires Enabled(s, e)
  {
    match e
    case FieldConnect(port, Some(Origin(tabId, windowId))) =>
      s.(fieldPorts := s.fieldPorts[tabId := FieldPort(port, windowId)],
         fieldOrigin := s.fieldOrigin[port := Origin(tabId, windowId)])
    case FieldDisconnect(port) =>
      if CurrentField(s, s.fieldOrigin[port].tabId, port)
      then s.(fieldPorts := s.fieldPorts - {s.fieldOrigin[port].tabId}) else s
    case PanelConnect(port) => s.(panelWindow := s.panelWindow[port := None])
    case PanelMessage(port, Some(Ctl(PanelHello(windowId)))) =>
      s.(panelWindow := s.panelWindow[port := Some(windowId)], panelPorts := s.panelPorts[windowId := port])
    case PanelDisconnect(port) =>
      var home := s.panelWindow[port];
      if home.Some? && CurrentPanel(s, home.value, port) then s.(panelPorts := s.panelPorts - {home.value}) else s
    case _ => s
  }

  lemma {:induction false} ExecuteFrames(s: System, es: seq<Effect>)
    ensures var s' := Execute(s, es); s' == s.(badges := s'.badges, sent := s'.sent)
  {
    if es != [] {
      ExecuteFrames(s, es[..|es| - 1]);
    }
  }

  lemma ApplyFrames(s: System, r: (RegistryState, seq<Effect>))
    ensures var s' := Apply(s, r); s' == s.(reg := s'.reg, badges := s'.badges, sent := s'.sent)
  {
    ExecuteFrames(s.(reg := r.0), r.1);
  }

  ghost predicate Framed(s: System, e: Event)
    requires Enabled(s, e)
  {
    var s' := Step(s, e);
    s' == PortsAfter(s, e).(reg := s'.reg, badges := s'.badges, sent := s'.sent)
  }

  lemma FieldMessageFrames(s: System, e: Event)
    requires Enabled(s, e) && e.FieldMessage?
    ensures Framed(s, e)
  {
    var Origin(tabId, windowId) := s.fieldOrigin[e.port];
    if e.data.Some? && e.data.value.Relay? {
      var m := e.data.value.envelope;
      if m.FieldConnected? {
        ApplyFrames(s, ConnectField(s.reg, windowId, tabId, m.info));
      } else if m.TextChanged? {
        ApplyFrames(s, ChangeText(s.reg, windowId, tabId, m));
      } else {
        ApplyFrames(s, RelayFromHost(s.reg, windowId, tabId, m));
      }
    }
  }

  lemma PanelMessageFrames(s: System, e: Event)
    requires Enabled(s, e) && e.PanelMessage?
    ensures Framed(s, e)
  {
    var home := s.panelWindow[e.port];
    if e.data.Some? && home.Some? {
      var m := e.data.value;
      if m.Relay? {
        ExecuteFrames(s, RelayFromEmbed(s.reg, home.value, m.envelope));
      } else if m.ctl.EmbedReady? {
        ApplyFrames(s, SetPanelReady(s.reg, home.value, m.ctl.ready));
      } else if m.ctl.Disconnect? {
        ExecuteFrames(s, RequestDisconnect(s.reg, home.value));
      }
    }
  }

  lemma FieldPortFrames(s: System, e: Event)
    requires Enabled(s, e) && (e.FieldConnect? || e.FieldDisconnect?)
    ensures Framed(s, e)
  {
    if e.FieldDisconnect? {
      var Origin(tabId, windowId) := s.fieldOrigin[e.port];
      ApplyFrames(s.(fieldPorts := s.fieldPorts - {tabId}), DropFieldPort(s.reg, windowId, tabId));
    } else if e.sender.Some? && e.sender.value.tabId in s.fieldPorts {
      var tabId := e.sender.value.tabId;
      ApplyFrames(s, DropFieldPort(s.reg, s.fieldPorts[tabId].windowId, tabId));
    }
  }

  lemma StepFrames(s: System, e: Event)
    requires Enabled(s, e)
    ensures Framed(s, e)
  {
    match e
    case FieldMessage(_, _) => FieldMessageFrames(s, e);
    case PanelMessage(_, _) => PanelMessageFrames(s, e);
    case FieldConnect(_, _) => FieldPortFrames(s, e);
    case FieldDisconnect(_) => FieldPortFrames(s, e);
    case ServerUrlChanged => ApplyFrames(s, DropAllFields(s.reg));
    case _ =>
  }
}
