/** The side panel's relay between the embed iframe and the service worker:
    the ready edge, the capped hello loop, and the gate on embed traffic. */
module PanelRelay {
  import opened Wrappers
  import opened Protocol

  const MAX_HELLO_ATTEMPTS := 30

  datatype RelayState = RelayState(ready: bool, timerArmed: bool, attempts: nat)

  const FRESH := RelayState(false, false, 0)

  datatype Output =
    | Hello                          // to the iframe
    | ToEmbed(hostMessage: Envelope) // to the iframe
    | ReadyChange(ready: bool)       // to the panel
    | Forward(embedMessage: Envelope) // to the port
    | FieldSeen(connected: bool)     // to the panel

  datatype Input =
    | Start
    | Tick
    | FromEmbed(data: Option<Envelope>)      // None: does not parse
    | FromPort(message: Option<PortMessage>)
    | Dispose

  predicate CanOccur(r: RelayState, i: Input) {
    i.Tick? ==> r.timerArmed
  }

  function HelloReaction(r: RelayState): (RelayState, seq<Output>) {
    var r' := r.(attempts := r.attempts + 1);
    if r'.attempts > MAX_HELLO_ATTEMPTS then (r'.(timerArmed := false), []) else (r', [Hello])
  }

  /** The panel observes the field messages that pass through to the embed. */
  function Seen(m: Envelope): seq<Output> {
    if m.FieldConnected? then [FieldSeen(true)]
    else if m.FieldDisconnected? then [FieldSeen(false)]
    else []
  }

  function React(r: RelayState, i: Input): (RelayState, seq<Output>) {
    match i
    case Start =>
      var (r', out) := HelloReaction(RelayState(false, false, 0));
      (r'.(timerArmed := true), (if r.ready then [ReadyChange(false)] else []) + out)
    case Tick => HelloReaction(r)
    case FromEmbed(data) =>
      if data.None? || !FromEmbedPage(data.value) then (r, [])
      else if data.value.ReadyMessage? then
        (r.(ready := true, timerArmed := false), if r.ready then [] else [ReadyChange(true)])
      else (r, if r.ready then [Forward(data.value)] else [])
    case FromPort(message) =>
      (r, if message.Some? && message.value.Relay? && !FromEmbedPage(message.value.envelope)
          then Seen(message.value.envelope) + [ToEmbed(message.value.envelope)] else [])
    case Dispose => (r.(ready := false, timerArmed := false), [])
  }

  class Relay {
    var ready: bool
    var timerArmed: bool
    var helloAttempts: nat
    ghost var log: seq<Output>   // every callback made so far

    function State(): RelayState
      reads this
    {
      RelayState(ready, timerArmed, helloAttempts)
    }

    constructor ()
      ensures State() == FRESH && log == []
    {
      ready, timerArmed, helloAttempts, log := false, false, 0, [];
    }

    method AttemptHello()
      modifies this
      ensures var r := HelloReaction(old(State())); State() == r.0 && log == old(log) + r.1
    {
      helloAttempts := helloAttempts + 1;
      if helloAttempts > MAX_HELLO_ATTEMPTS {
        timerArmed := false;
        return;
      }
      log := log + [Hello];
    }

    method Start()
      modifies this
      ensures var r := React(old(State()), Input.Start); State() == r.0 && log == old(log) + r.1
    {
      timerArmed := false;
      if ready {
        ready := false;
        log := log + [ReadyChange(false)];
      }
      helloAttempts := 0;
      AttemptHello();
      timerArmed := true;
    }

    method OnTimer()
      modifies this
      ensures var r := React(old(State()), Tick); State() == r.0 && log == old(log) + r.1
    {
      AttemptHello();
    }

    method FromEmbed(data: Option<Envelope>)
      modifies this
      ensures var r := React(old(State()), Input.FromEmbed(data)); State() == r.0 && log == old(log) + r.1
    {
      if data.None? || !FromEmbedPage(data.value) { return; }
      if data.value.ReadyMessage? {
        timerArmed := false;
        if !ready {
          ready := true;
          log := log + [ReadyChange(true)];
        }
        return;
      }
      if !ready { return; }
      log := log + [Forward(data.value)];
    }

    method FromPort(message: Option<PortMessage>)
      modifies this
      ensures var r := React(old(State()), Input.FromPort(message)); State() == r.0 && log == old(log) + r.1
    {
      if message.None? || message.value.Ctl? { return; }
      var m := message.value.envelope;
      if FromEmbedPage(m) { return; }
      if m.FieldConnected? {
        log := log + [FieldSeen(true)];
      } else if m.FieldDisconnected? {
        log := log + [FieldSeen(false)];
      }
      log := log + [ToEmbed(m)];
    }

    method Dispose()
      modifies this
      ensures var r := React(old(State()), Input.Dispose); State() == r.0 && log == old(log) + r.1
    {
      timerArmed := false;
      ready := false;
    }
  }

  // ---- Runs ----

  /** A run's log, where its last start began, and whether a relay was disposed
      while ready and then heard `ready` again. */
  datatype Trace = Trace(state: RelayState, log: seq<Output>, startAt: nat, disposedReady: bool, revived: bool)

  function Observe(t: Trace, i: Input): Trace {
    var (r, out) := React(t.state, i);
    Trace(r, t.log + out,
          if i.Start? then |t.log| else t.startAt,
          t.disposedReady || (i.Dispose? && t.state.ready),
          t.revived || (i == FromEmbed(Some(ReadyMessage)) && t.disposedReady))
  }

  function After(inputs: seq<Input>): Option<Trace> {
    if inputs == [] then Some(Trace(FRESH, [], 0, false, false))
    else
      match After(inputs[..|inputs| - 1])
      case None => None
      case Some(t) => if CanOccur(t.state, inputs[|inputs| - 1]) then Some(Observe(t, inputs[|inputs| - 1])) else None
  }

  function Notes(log: seq<Output>): seq<bool> {
    if log == [] then []
    else
      var last := log[|log| - 1];
      Notes(log[..|log| - 1]) + (if last.ReadyChange? then [last.ready] else [])
  }

  function Hellos(log: seq<Output>): nat {
    if log == [] then 0
    else Hellos(log[..|log| - 1]) + if log[|log| - 1].Hello? then 1 else 0
  }

  /** true, false, true, ... */
  ghost predicate Alternates(notes: seq<bool>) {
    forall k :: 0 <= k < |notes| ==> notes[k] == (k % 2 == 0)
  }

  ghost predicate GatedAt(log: seq<Output>, k: nat)
    requires k < |log|
  {
    var notes := Notes(log[..k]);
    log[k].Forward? ==> notes != [] && notes[|notes| - 1]
  }

  /** Every forwarded embed message has a `true` as the last notification before it. */
  ghost predicate Gated(log: seq<Output>) {
    forall k :: 0 <= k < |log| ==> GatedAt(log, k)
  }

  lemma {:induction false} LogAppends(log: seq<Output>, out: seq<Output>)
    ensures Notes(log + out) == Notes(log) + Notes(out)
    ensures Hellos(log + out) == Hellos(log) + Hellos(out)
  {
    if out == [] {
      assert log + out == log;
    } else {
      var init := out[..|out| - 1];
      LogAppends(log, init);
      assert (log + out)[..|log + out| - 1] == log + init;
      assert Notes(log + out) == Notes(log + init) + (if out[|out| - 1].ReadyChange? then [out[|out| - 1].ready] else []);
    }
  }

  function OneNote(o: Output): seq<bool> {
    if o.ReadyChange? then [o.ready] else []
  }

  function OneHello(o: Output): nat {
    if o.Hello? then 1 else 0
  }

  lemma LogOfTwo(o1: Output, o2: Output)
    ensures Notes([o1, o2]) == OneNote(o1) + OneNote(o2)
    ensures Hellos([o1, o2]) == OneHello(o1) + OneHello(o2)
  {
    LogAppends([o1], [o2]);
    assert [o1] + [o2] == [o1, o2];
  }

  /** The notification a reaction makes, if any. */
  function Said(r: RelayState, i: Input): seq<bool> {
    if i.Start? && r.ready then [false]
    else if i == FromEmbed(Some(ReadyMessage)) && !r.ready then [true]
    else []
  }

  lemma PassingSaysNothing(m: Envelope)
    ensures Notes(Seen(m) + [ToEmbed(m)]) == [] && Hellos(Seen(m) + [ToEmbed(m)]) == 0
  {
    LogAppends(Seen(m), [ToEmbed(m)]);
  }

  lemma StartSays(ready: bool)
    ensures var out := (if ready then [ReadyChange(false)] else []) + [Hello];
            Notes(out) == (if ready then [false] else []) && Hellos(out) == 1
  {
    LogAppends(if ready then [ReadyChange(false)] else [], [Hello]);
  }

  /** What one reaction says: at most one notification and one hello. */
  lemma ReactionSays(r: RelayState, i: Input)
    ensures var out := React(r, i).1;
            && Notes(out) == Said(r, i)
            && Hellos(out) == (if i.Start? || (i.Tick? && r.attempts < MAX_HELLO_ATTEMPTS) then 1 else 0)
  {
    match i
    case Start => StartSays(r.ready);
    case FromPort(message) =>
      if message.Some? && message.value.Relay? { PassingSaysNothing(message.value.envelope); }
    case _ =>
  }

  lemma ForwardsOnlyWhenReady(r: RelayState, i: Input)
    ensures var out := React(r, i).1;
            forall k :: 0 <= k < |out| && out[k].Forward? ==> r.ready && k == 0
  {
  }

  function Capped(attempts: nat): nat {
    if attempts < MAX_HELLO_ATTEMPTS then attempts else MAX_HELLO_ATTEMPTS
  }

  /** The notifications so far, the flag they leave, and the disposal history. */
  ghost predicate NotesRight(notes: seq<bool>, ready: bool, disposedReady: bool, revived: bool) {
    && (ready ==> notes != [] && notes[|notes| - 1])
    && (Alternates(notes) <==> !revived)
    && (!revived && disposedReady ==> !ready && |notes| % 2 == 1)
    && (!revived && !disposedReady ==> ready == (|notes| % 2 == 1))
  }

  ghost predicate Inv(t: Trace) {
    && NotesRight(Notes(t.log), t.state.ready, t.disposedReady, t.revived)
    && Gated(t.log)
    && t.startAt <= |t.log|
    && HellosSince(t.log, t.startAt) == Capped(t.state.attempts)
  }

  function HellosSince(log: seq<Output>, start: nat): nat
    requires start <= |log|
  {
    Hellos(log[start..])
  }

  lemma SinceAppends(log: seq<Output>, start: nat, out: seq<Output>)
    requires start <= |log|
    ensures HellosSince(log + out, start) == HellosSince(log, start) + Hellos(out)
    ensures HellosSince(log + out, |log|) == Hellos(out)
  {
    assert (log + out)[start..] == log[start..] + out && (log + out)[|log|..] == out;
    LogAppends(log[start..], out);
  }

  lemma AlternatesAppend(notes: seq<bool>, more: seq<bool>)
    requires |more| <= 1
    ensures Alternates(notes + more) <==> Alternates(notes) && (more == [] || more[0] == (|notes| % 2 == 0))
  {
    if Alternates(notes + more) {
      forall k | 0 <= k < |notes| ensures notes[k] == (k % 2 == 0) {
        assert (notes + more)[k] == notes[k];
      }
      if more != [] {
        assert (notes + more)[|notes|] == more[0];
      }
    }
  }

  predicate LastNoteIsTrue(notes: seq<bool>) {
    notes != [] && notes[|notes| - 1]
  }

  lemma GatedBefore(log: seq<Output>, out: seq<Output>, k: nat)
    requires Gated(log) && k < |log|
    ensures GatedAt(log + out, k)
  {
    assert (log + out)[..k] == log[..k] && (log + out)[k] == log[k];
    assert GatedAt(log, k);
  }

  lemma GatedAppend(log: seq<Output>, out: seq<Output>)
    requires Gated(log)
    requires forall k :: 0 <= k < |out| && out[k].Forward? ==> k == 0 && LastNoteIsTrue(Notes(log))
    ensures Gated(log + out)
  {
    forall k | 0 <= k < |log + out| ensures GatedAt(log + out, k) {
      if k < |log| {
        GatedBefore(log, out, k);
      } else if k > |log| {
        assert (log + out)[k] == out[k - |log|];
      }
    }
  }

  lemma NotesStayRight(notes: seq<bool>, r: RelayState, disposedReady: bool, revived: bool, i: Input)
    requires NotesRight(notes, r.ready, disposedReady, revived)
    ensures var hears := i == FromEmbed(Some(ReadyMessage));
            NotesRight(notes + Said(r, i), if i.Start? || i.Dispose? then false else r.ready || hears,
                       disposedReady || (i.Dispose? && r.ready), revived || (hears && disposedReady))
  {
    AlternatesAppend(notes, Said(r, i));
  }

  lemma ReactionReadies(r: RelayState, i: Input)
    ensures React(r, i).0.ready ==
            if i.Start? || i.Dispose? then false else r.ready || i == FromEmbed(Some(ReadyMessage))
  {
  }

  lemma ObserveKeepsNotes(t: Trace, i: Input)
    requires Inv(t)
    ensures var t' := Observe(t, i); NotesRight(Notes(t'.log), t'.state.ready, t'.disposedReady, t'.revived)
  {
    ReactionSays(t.state, i);
    ReactionReadies(t.state, i);
    LogAppends(t.log, React(t.state, i).1);
    assert Notes(Observe(t, i).log) == Notes(t.log) + Said(t.state, i);
    NotesStayRight(Notes(t.log), t.state, t.disposedReady, t.revived, i);
  }

  lemma ObserveKeepsHellos(t: Trace, i: Input)
    requires Inv(t)
    ensures var t' := Observe(t, i);
            t'.startAt <= |t'.log| && HellosSince(t'.log, t'.startAt) == Capped(t'.state.attempts)
  {
    ReactionSays(t.state, i);
    SinceAppends(t.log, t.startAt, React(t.state, i).1);
  }

  lemma ObserveKeeps(t: Trace, i: Input)
    requires Inv(t)
    ensures Inv(Observe(t, i))
  {
    ObserveKeepsNotes(t, i);
    ObserveKeepsHellos(t, i);
    ForwardsOnlyWhenReady(t.state, i);
    GatedAppend(t.log, React(t.state, i).1);
  }

  lemma {:induction false} RunKeeps(inputs: seq<Input>)
    requires After(inputs).Some?
    ensures Inv(After(inputs).value)
  {
    if inputs != [] {
      RunKeeps(inputs[..|inputs| - 1]);
      ObserveKeeps(After(inputs[..|inputs| - 1]).value, inputs[|inputs| - 1]);
    }
  }

  /** The ready notifications alternate, starting with true, exactly when no
      relay that was disposed while ready hears `ready` again. */
  lemma NotificationsAlternate(inputs: seq<Input>)
    requires After(inputs).Some?
    ensures var t := After(inputs).value; Alternates(Notes(t.log)) <==> !t.revived
  {
    RunKeeps(inputs);
  }

  lemma {:induction false} UndisposedNeverRevives(inputs: seq<Input>)
    requires After(inputs).Some? && Dispose !in inputs
    ensures !After(inputs).value.disposedReady && !After(inputs).value.revived
  {
    if inputs != [] {
      assert inputs == inputs[..|inputs| - 1] + [inputs[|inputs| - 1]];
      UndisposedNeverRevives(inputs[..|inputs| - 1]);
    }
  }

  /** So they alternate in every run of a relay that is not disposed; the panel
      never disposes its own. */
  lemma UndisposedAlternates(inputs: seq<Input>)
    requires After(inputs).Some? && Dispose !in inputs
    ensures Alternates(Notes(After(inputs).value.log))
  {
    UndisposedNeverRevives(inputs);
    NotificationsAlternate(inputs);
  }

  /** Nothing from the embed is forwarded outside a ready interval. */
  lemma ForwardsAreGated(inputs: seq<Input>)
    requires After(inputs).Some?
    ensures Gated(After(inputs).value.log)
  {
    RunKeeps(inputs);
  }

  /** Each start sends one hello per attempt and never more than the cap. */
  lemma HellosAreCapped(inputs: seq<Input>)
    requires After(inputs).Some?
    ensures var t := After(inputs).value;
            && t.startAt <= |t.log|
            && HellosSince(t.log, t.startAt) <= MAX_HELLO_ATTEMPTS
            && (t.state.attempts <= MAX_HELLO_ATTEMPTS ==> HellosSince(t.log, t.startAt) == t.state.attempts)
  {
    RunKeeps(inputs);
  }

  // ---- The log, from the inputs alone ----

  /** Whether the embed has said that it is ready since the last (re)start. */
  function Listening(inputs: seq<Input>): bool {
    if inputs == [] then false
    else
      match inputs[|inputs| - 1]
      case Start => false
      case Dispose => false
      case FromEmbed(Some(ReadyMessage)) => true
      case _ => Listening(inputs[..|inputs| - 1])
  }

  /** Hellos attempted since the last start, sent or not. */
  function Attempts(inputs: seq<Input>): nat {
    if inputs == [] then 0
    else
      match inputs[|inputs| - 1]
      case Start => 1
      case Tick => Attempts(inputs[..|inputs| - 1]) + 1
      case _ => Attempts(inputs[..|inputs| - 1])
  }

  /** Whether a hello is to be repeated: from a start until the embed is ready,
      the relay is disposed, or thirty have been sent. */
  function Repeating(inputs: seq<Input>): bool {
    if inputs == [] then false
    else
      match inputs[|inputs| - 1]
      case Start => true
      case Dispose => false
      case FromEmbed(Some(ReadyMessage)) => false
      case Tick => Repeating(inputs[..|inputs| - 1]) && Attempts(inputs) <= 30
      case _ => Repeating(inputs[..|inputs| - 1])
  }

  /** What the last input of a run is answered with. */
  function Answer(inputs: seq<Input>): seq<Output>
    requires inputs != []
  {
    var front := inputs[..|inputs| - 1];
    match inputs[|inputs| - 1]
    case Start => (if Listening(front) then [ReadyChange(false)] else []) + [Hello]
    case Tick => if Attempts(inputs) <= 30 then [Hello] else []
    case FromEmbed(Some(ReadyMessage)) => if Listening(front) then [] else [ReadyChange(true)]
    case FromEmbed(Some(Status(phase, count))) => if Listening(front) then [Forward(Status(phase, count))] else []
    case FromEmbed(Some(OtherEmbed(tag))) => if Listening(front) then [Forward(OtherEmbed(tag))] else []
    case FromPort(Some(Relay(FieldConnected(info)))) => [FieldSeen(true), ToEmbed(FieldConnected(info))]
    case FromPort(Some(Relay(FieldDisconnected(fieldId)))) => [FieldSeen(false), ToEmbed(FieldDisconnected(fieldId))]
    case FromPort(Some(Relay(TextChanged(fieldId, text)))) => [ToEmbed(TextChanged(fieldId, text))]
    case FromPort(Some(Relay(ReplaceResult(id, fieldId, ok, text)))) => [ToEmbed(ReplaceResult(id, fieldId, ok, text))]
    case FromPort(Some(Relay(OtherHost(tag)))) => [ToEmbed(OtherHost(tag))]
    case _ => []
  }

  function Answers(inputs: seq<Input>): seq<Output> {
    if inputs == [] then [] else Answers(inputs[..|inputs| - 1]) + Answer(inputs)
  }

  function StateOf(inputs: seq<Input>): RelayState {
    RelayState(Listening(inputs), Repeating(inputs), Attempts(inputs))
  }

  lemma FromPortAnswer(inputs: seq<Input>)
    requires inputs != [] && inputs[|inputs| - 1].FromPort?
    ensures React(StateOf(inputs[..|inputs| - 1]), inputs[|inputs| - 1]) == (StateOf(inputs), Answer(inputs))
  {
    assert React(StateOf(inputs[..|inputs| - 1]), inputs[|inputs| - 1]).1 == Answer(inputs);
  }

  lemma FromEmbedAnswer(inputs: seq<Input>)
    requires inputs != [] && inputs[|inputs| - 1].FromEmbed?
    ensures React(StateOf(inputs[..|inputs| - 1]), inputs[|inputs| - 1]) == (StateOf(inputs), Answer(inputs))
  {
  }

  lemma OwnAnswer(inputs: seq<Input>)
    requires inputs != [] && CanOccur(StateOf(inputs[..|inputs| - 1]), inputs[|inputs| - 1])
    ensures React(StateOf(inputs[..|inputs| - 1]), inputs[|inputs| - 1]) == (StateOf(inputs), Answer(inputs))
  {
    match inputs[|inputs| - 1]
    case FromPort(_) => FromPortAnswer(inputs);
    case FromEmbed(_) => FromEmbedAnswer(inputs);
    case _ =>
  }

  /** Every host message reaches the embed once and in order, what the embed
      says while it is ready reaches the port once and in order, and nothing
      else does: the whole log is the answers to the inputs, one by one. */
  lemma {:induction false} LogIsAnswers(inputs: seq<Input>)
    requires After(inputs).Some?
    ensures var t := After(inputs).value;
            t.log == Answers(inputs) && t.state == StateOf(inputs)
  {
    if inputs != [] {
      LogIsAnswers(inputs[..|inputs| - 1]);
      OwnAnswer(inputs);
    }
  }

  /** The shortest run that breaks the alternation. */
  lemma DisposeCanRepeatTrue()
    ensures var t := After([FromEmbed(Some(ReadyMessage)), Dispose, FromEmbed(Some(ReadyMessage))]);
            t.Some? && Notes(t.value.log) == [true, true]
  {
    var i := FromEmbed(Some(ReadyMessage));
    assert [i, Dispose, i][..2] == [i, Dispose] && [i, Dispose][..1] == [i] && [i][..0] == [];
    var log := [ReadyChange(true), ReadyChange(true)];
    LogOfTwo(log[0], log[1]);
    var t1 := Trace(RelayState(true, false, 0), [log[0]], 0, false, false);
    assert Observe(Trace(FRESH, [], 0, false, false), i).log == t1.log;
    assert After([i]) == Some(t1);
    var t2 := Trace(FRESH, [log[0]], 0, true, false);
    assert Observe(t1, Dispose).log == t2.log;
    assert After([i, Dispose]) == Some(t2);
    assert Observe(t2, i).log == log;
  }
}
