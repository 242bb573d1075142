/** The service worker's promises, read off its invariant. */
module RoutingTheorems {
  import opened Wrappers
  import opened Protocol
  import opened Registries
  import opened Routing
  import opened RoutingProofs
  import opened RoutingReference

  /** In every reachable state, folding what the current panel port was sent
      since its last ready edge gives the registry's field, unless a server
      change took that field and nothing has connected there since. */
  lemma PanelReplica(events: seq<Event>, windowId: int)
    requires After(events).Some?
    ensures var (s, h) := After(events).value;
            Ready(s, windowId) ==>
              && windowId in s.panelPorts && windowId in h.since
              && h.since[windowId] <= |SentTo(s, s.panelPorts[windowId])|
              && var copy := Fold(SentTo(s, s.panelPorts[windowId])[h.since[windowId]..]);
                 copy == FieldOf(s, windowId) || (FieldOf(s, windowId).None? && windowId in h.orphaned)
  {
    RunKeeps(events);
    var (s, h) := After(events).value;
    assert Replica(s, h, windowId);
  }

  /** A registered field belongs to a tab whose current port was opened in that
      window, so no tab is the field of two windows. */
  lemma NoGhostField(events: seq<Event>, w1: int, w2: int)
    requires After(events).Some?
    ensures var s := After(events).value.0;
            var f1, f2 := WindowOf(s.reg, w1).field, WindowOf(s.reg, w2).field;
            && (f1.Some? ==>
                  && f1.value.tabId in s.fieldPorts && s.fieldPorts[f1.value.tabId].windowId == w1
                  && Lookup(s.fieldOrigin, s.fieldPorts[f1.value.tabId].port) == Some(Origin(f1.value.tabId, w1)))
            && (f1.Some? && f2.Some? && f1.value.tabId == f2.value.tabId ==> w1 == w2)
  {
    RunKeeps(events);
    var (s, h) := After(events).value;
    assert NoGhost(s, w1) && NoGhost(s, w2);
    var f1 := WindowOf(s.reg, w1).field;
    assert f1.Some? ==> s.fieldPorts[f1.value.tabId].port in s.fieldOrigin;
  }

  /** A port that is not its tab's (or its window's) current port changes
      nothing at once; RoutingSilence says that it never will again. */
  lemma SupersededPortIsInert(s: System, port: int, data: Option<PortMessage>)
    ensures port in s.fieldOrigin && !CurrentField(s, s.fieldOrigin[port].tabId, port) ==>
              && Step(s, FieldMessage(port, data)) == s
              && Step(s, FieldDisconnect(port)) == s
              && Step(s, OpenPanelFailed(port)) == s
    ensures port in s.panelWindow && s.panelWindow[port].Some? && !CurrentPanel(s, s.panelWindow[port].value, port)
            && Enabled(s, PanelMessage(port, data)) ==>
              && Step(s, PanelMessage(port, data)) == s
              && Step(s, PanelDisconnect(port)) == s
  {
  }

  /** A badge is blank, or its tab is the live field of a window and the badge
      is the non-zero count of the last status since that field connected. */
  lemma BadgeTruth(events: seq<Event>, tabId: int)
    requires After(events).Some?
    ensures var (s, h) := After(events).value;
            BadgeOf(s, tabId).Count? ==>
              && tabId in s.fieldPorts
              && var w := s.fieldPorts[tabId].windowId;
                 && Owns(WindowOf(s.reg, w), tabId)
                 && w in h.lastCount && h.lastCount[w] > 0
                 && BadgeOf(s, tabId) == Count(h.lastCount[w])
    ensures var (s, h) := After(events).value;
            Live(s, tabId) ==>
              && s.fieldPorts[tabId].windowId in h.lastCount
              && BadgeOf(s, tabId) == CountBadge(h.lastCount[s.fieldPorts[tabId].windowId])
  {
    RunKeeps(events);
    var (s, h) := After(events).value;
    assert BadgeTrue(s, h, tabId);
    if Live(s, tabId) {
      assert Counted(s, h, s.fieldPorts[tabId].windowId);
    }
  }

  // ---- Silence after a server change ----

  /** Only a panel hears of a window, and only its own. */
  lemma PanelHearsHome(s: System, v: int, windowId: int, port: int)
    requires Wired(s) && port in s.panelWindow && s.panelWindow[port] == Some(windowId)
    ensures !PaintsField(s, v, port)
    ensures SpeaksForWindow(s, v, port) ==> v == windowId
  {
    if PaintsField(s, v, port) {
      PaintsHome(s, v, port);
    }
  }

  lemma QuietWindow(s: System, e: Event, windowId: int, port: int)
    requires Wired(s) && Enabled(s, e)
    requires port in s.panelWindow && s.panelWindow[port] == Some(windowId)
    requires FieldOf(s, windowId).None? && WindowAfter(s, e, windowId).field.None?
    ensures Told(s, e, port) == []
  {
    forall v { PanelHearsHome(s, v, windowId, port); }
  }

  /** An event that starts and ends with no field in a window sends that
      window's panel port nothing. */
  lemma QuietStep(s: System, e: Event, windowId: int, port: int)
    requires Wired(s) && Enabled(s, e)
    requires port in s.panelWindow && s.panelWindow[port] == Some(windowId)
    requires FieldOf(s, windowId).None? && FieldOf(Step(s, e), windowId).None?
    ensures SentTo(Step(s, e), port) == SentTo(s, port)
    ensures port in Step(s, e).panelWindow && Step(s, e).panelWindow[port] == Some(windowId)
  {
    StepSends(s, e, port);
    StepBecomes(s, e, windowId, 0);
    StepFrames(s, e);
    QuietWindow(s, e, windowId, port);
  }

  // ---- The embed's own copy ----

  /** The embed page checks field ids that the registry does not, and takes the
      text echoed by a replacement result, which the registry does not. */
  function EmbedOne(copy: Option<FieldInfo>, m: PortMessage): Option<FieldInfo> {
    match m
    case Relay(FieldConnected(info)) => Some(info)
    case Relay(TextChanged(fieldId, text)) =>
      if copy.Some? && copy.value.fieldId == fieldId then Some(copy.value.(text := text)) else copy
    case Relay(ReplaceResult(_, fieldId, _, text)) =>
      if copy.Some? && copy.value.fieldId == fieldId then Some(copy.value.(text := text)) else copy
    case Relay(FieldDisconnected(fieldId)) =>
      if copy.Some? && copy.value.fieldId == fieldId then None else copy
    case _ => copy
  }

  function EmbedFold(ms: seq<PortMessage>): Option<FieldInfo> {
    if ms == [] then None else EmbedOne(EmbedFold(ms[..|ms| - 1]), ms[|ms| - 1])
  }

  /** What a host must respect when it speaks about the connected field. */
  predicate Scoped(copy: Option<FieldInfo>, m: PortMessage) {
    copy.Some? ==>
      var f := copy.value;
      match m
      case Relay(TextChanged(fieldId, text)) => fieldId == f.fieldId || text == f.text
      case Relay(ReplaceResult(_, fieldId, _, text)) => fieldId != f.fieldId || text == f.text
      case Relay(FieldDisconnected(fieldId)) => fieldId == f.fieldId
      case _ => true
  }

  ghost predicate AllScoped(ms: seq<PortMessage>) {
    forall k :: 0 <= k < |ms| ==> Scoped(Fold(ms[..k]), ms[k])
  }

  ghost predicate CopiesAgree(ms: seq<PortMessage>) {
    forall k :: 0 <= k <= |ms| ==> EmbedFold(ms[..k]) == Fold(ms[..k])
  }

  lemma ScopedIsExact(copy: Option<FieldInfo>, m: PortMessage)
    ensures EmbedOne(copy, m) == FoldOne(copy, m) <==> Scoped(copy, m)
  {
  }

  lemma Prefixes(ms: seq<PortMessage>, k: nat)
    requires 0 <= k <= |ms| - 1
    ensures ms[..|ms| - 1][..k] == ms[..k]
  {
  }

  lemma AllScopedSplits(ms: seq<PortMessage>)
    requires ms != []
    ensures AllScoped(ms) <==> AllScoped(ms[..|ms| - 1]) && Scoped(Fold(ms[..|ms| - 1]), ms[|ms| - 1])
  {
    var init := ms[..|ms| - 1];
    forall k | 0 <= k < |init| ensures Scoped(Fold(init[..k]), init[k]) <==> Scoped(Fold(ms[..k]), ms[k]) {
      Prefixes(ms, k);
    }
    assert AllScoped(ms) ==> Scoped(Fold(ms[..|ms| - 1]), ms[|ms| - 1]);
  }

  lemma CopiesAgreeSplits(ms: seq<PortMessage>)
    requires ms != []
    ensures CopiesAgree(ms) <==> CopiesAgree(ms[..|ms| - 1]) && EmbedFold(ms) == Fold(ms)
  {
    var n := |ms| - 1;
    var init := ms[..n];
    assert ms[..n + 1] == ms;
    if CopiesAgree(ms) {
      forall k | 0 <= k <= n ensures EmbedFold(init[..k]) == Fold(init[..k]) {
        Prefixes(ms, k);
        assert EmbedFold(ms[..k]) == Fold(ms[..k]);
      }
      assert EmbedFold(ms[..n + 1]) == Fold(ms[..n + 1]);
    }
    if CopiesAgree(init) && EmbedFold(ms) == Fold(ms) {
      forall k | 0 <= k <= n + 1 ensures EmbedFold(ms[..k]) == Fold(ms[..k]) {
        if k <= n {
          Prefixes(ms, k);
          assert EmbedFold(init[..k]) == Fold(init[..k]);
        }
      }
    }
  }

  /** The embed's copy follows the registry's at every message exactly when the
      hosts' messages are scoped; one unscoped message separates them. */
  lemma {:induction false} EmbedCopyAgrees(ms: seq<PortMessage>)
    ensures CopiesAgree(ms) <==> AllScoped(ms)
  {
    if ms != [] {
      var init := ms[..|ms| - 1];
      EmbedCopyAgrees(init);
      AllScopedSplits(ms);
      CopiesAgreeSplits(ms);
      ScopedIsExact(Fold(init), ms[|ms| - 1]);
      assert CopiesAgree(init) ==> EmbedFold(init[..|init|]) == Fold(init[..|init|]);
      assert init[..|init|] == init;
    }
  }

  /** So with scoped hosts the embed shows the registry's field. */
  lemma EmbedReplica(events: seq<Event>, windowId: int)
    requires After(events).Some?
    requires var (s, h) := After(events).value;
             && Ready(s, windowId) && windowId in s.panelPorts && windowId in h.since
             && h.since[windowId] <= |SentTo(s, s.panelPorts[windowId])|
             && AllScoped(SentTo(s, s.panelPorts[windowId])[h.since[windowId]..])
    ensures var (s, h) := After(events).value;
            EmbedFold(SentTo(s, s.panelPorts[windowId])[h.since[windowId]..]) == FieldOf(s, windowId)
            || (FieldOf(s, windowId).None? && windowId in h.orphaned)
  {
    var (s, h) := After(events).value;
    var ms := SentTo(s, s.panelPorts[windowId])[h.since[windowId]..];
    PanelReplica(events, windowId);
    EmbedCopyAgrees(ms);
    assert ms[..|ms|] == ms;
  }
}
