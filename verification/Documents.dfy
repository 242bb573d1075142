/** The document store: a read, then a write conditional on the revision. */
module Documents {
  import opened Wrappers

  datatype NameSource = Fallback | Llm | User

  datatype Content = Content(text: string, findings: seq<string>, scorecard: Option<string>)
  datatype Settings = Settings(
    language: string, profileId: Option<int>, domainIds: seq<int>,
    llmProvider: Option<string>, llmModel: Option<string>, llmTier: Option<string>, llmAuto: bool)

  datatype Document = Document(
    owner: int, name: string, nameSource: NameSource, content: Content, settings: Settings,
    folder: Option<int>, editedAt: nat, checkedAt: Option<nat>, revision: nat, updatedAt: nat)

  /** What an update request carries; a name always makes it the user's. */
  datatype Fields = Fields(name: Option<string>, content: Option<Content>, settings: Option<Settings>)

  type Docs = map<int, Document>

  datatype UpdateResult = Updated(document: Document) | Missing | Conflict(current: nat)

  predicate Visible(docs: Docs, id: int, owner: int) {
    id in docs && docs[id].owner == owner
  }

  /** The read copy with the request's fields laid over it. */
  function Merged(d: Document, f: Fields, now: nat): Document {
    var textChanged := f.content.Some? && f.content.value.text != d.content.text;
    var nameChanged := f.name.Some? && f.name.value != d.name;
    d.(name := if f.name.Some? then f.name.value else d.name,
       nameSource := if f.name.Some? then User else d.nameSource,
       content := if f.content.Some? then f.content.value else d.content,
       settings := if f.settings.Some? then f.settings.value else d.settings,
       editedAt := if textChanged || nameChanged then now else d.editedAt,
       checkedAt := if f.content.Some? then Some(now) else d.checkedAt)
  }

  /** The UPDATE writes every merged column; folder and owner are not its. */
  function Written(stored: Document, merged: Document, now: nat): Document {
    merged.(owner := stored.owner, folder := stored.folder, revision := stored.revision + 1, updatedAt := now)
  }

  predicate Current(docs: Docs, id: int, base: nat, owner: int) {
    Visible(docs, id, owner) && docs[id].revision == base
  }

  function WriteUpdate(docs: Docs, id: int, base: nat, owner: int, merged: Document, now: nat): Docs {
    if Current(docs, id, base, owner) then docs[id := Written(docs[id], merged, now)] else docs
  }

  function Renamed(d: Document, name: string, source: NameSource, now: nat): Document {
    d.(name := name, nameSource := source, updatedAt := now)
  }

  function SetName(docs: Docs, id: int, name: string, source: NameSource, owner: int,
                   onlyIf: Option<NameSource>, now: nat): Docs {
    if Visible(docs, id, owner) && (onlyIf.None? || docs[id].nameSource == onlyIf.value)
    then docs[id := Renamed(docs[id], name, source, now)]
    else docs
  }

  function SetFolder(docs: Docs, id: int, folder: Option<int>, owner: int, now: nat): Docs {
    if Visible(docs, id, owner) then docs[id := docs[id].(folder := folder, updatedAt := now)] else docs
  }

  function Unfile(docs: Docs, folder: int, owner: int): Docs {
    map id | id in docs ::
      if docs[id].owner == owner && docs[id].folder == Some(folder) then docs[id].(folder := None) else docs[id]
  }

  /** The response to a committed update: the merged copy, renumbered. */
  function Response(merged: Document, base: nat, now: nat): Document {
    merged.(revision := base + 1, updatedAt := now)
  }

  // ---- What the operations promise, column by column ----

  /** A committed update: `read` is the copy the request was laid over, `stored`
      the row the write found. */
  predicate IsUpdateOf(d: Document, read: Document, stored: Document, f: Fields, now: nat) {
    && (match f.name
        case Some(name) => d.name == name && d.nameSource == User
        case None => d.name == read.name && d.nameSource == read.nameSource)
    && d.content == (match f.content case Some(content) => content case None => read.content)
    && d.settings == (match f.settings case Some(settings) => settings case None => read.settings)
    && d.editedAt == (if d.content.text != read.content.text || d.name != read.name then now else read.editedAt)
    && d.checkedAt == (if f.content.Some? then Some(now) else read.checkedAt)
    && d.owner == stored.owner && d.folder == stored.folder
    && d.revision == stored.revision + 1 && d.updatedAt == now
  }

  /** A new document is what was asked for, and counts as checked only if it
      comes with the results of a check. */
  predicate IsCreationOf(d: Document, name: string, source: NameSource, content: Content, settings: Settings,
                         folder: Option<int>, owner: int, now: nat) {
    && d.owner == owner && d.name == name && d.nameSource == source && d.content == content
    && d.settings == settings && d.folder == folder && d.revision == 0
    && d.editedAt == now && d.updatedAt == now
    && d.checkedAt == (if content.findings == [] && content.scorecard == None then None else Some(now))
  }

  /** The same documents but for one. */
  predicate OnlyChanges(docs: Docs, docs': Docs, id: int) {
    id in docs' && docs' == docs[id := docs'[id]]
  }

  class DocumentStore {
    var docs: Docs
    var nextId: int

    ghost predicate Valid()
      reads this
    {
      forall id :: id in docs ==> id < nextId
    }

    constructor ()
      ensures Valid() && docs == map[]
    {
      docs, nextId := map[], 0;
    }

    method CreateDocument(name: string, source: NameSource, content: Content, settings: Settings,
                          folder: Option<int>, owner: int, now: nat) returns (id: int)
      requires Valid()
      modifies this
      ensures Valid() && id == old(nextId) && id !in old(docs)
      ensures OnlyChanges(old(docs), docs, id)
      ensures IsCreationOf(docs[id], name, source, content, settings, folder, owner, now)
    {
      id := nextId;
      docs := docs[id := NewDocument(name, source, content, settings, folder, owner, now)];
      nextId := nextId + 1;
    }

    method GetDocument(id: int, owner: int) returns (d: Option<Document>)
      ensures d == if id in docs && docs[id].owner == owner then Some(docs[id]) else None
    {
      if id !in docs || docs[id].owner != owner { return None; }
      d := Some(docs[id]);
    }

    method Write(id: int, base: nat, owner: int, merged: Document, now: nat) returns (written: bool)
      modifies this`docs
      ensures docs == WriteUpdate(old(docs), id, base, owner, merged, now)
      ensures written == Current(old(docs), id, base, owner)
    {
      written := id in docs && docs[id].owner == owner && docs[id].revision == base;
      if written {
        docs := docs[id := Written(docs[id], merged, now)];
      }
    }

    /** With nothing in between, an update commits exactly when the base
        revision is current, and otherwise reports why and changes nothing. */
    method UpdateDocument(id: int, base: nat, owner: int, fields: Fields, now: nat) returns (r: UpdateResult)
      modifies this`docs
      ensures !Visible(old(docs), id, owner) ==> r == Missing && docs == old(docs)
      ensures Visible(old(docs), id, owner) && old(docs)[id].revision != base ==>
                r == Conflict(old(docs)[id].revision) && docs == old(docs)
      ensures Current(old(docs), id, base, owner) ==>
                && OnlyChanges(old(docs), docs, id) && r == Updated(docs[id])
                && IsUpdateOf(docs[id], old(docs)[id], old(docs)[id], fields, now)
    {
      var current := GetDocument(id, owner);
      if current.None? { return Missing; }
      var merged := Merged(current.value, fields, now);
      var written := Write(id, base, owner, merged, now);
      if !written {
        var latest := GetDocument(id, owner);
        if latest.None? { return Missing; }
        return Conflict(latest.value.revision);
      }
      r := Updated(Response(merged, base, now));
    }

    method Rename(id: int, name: string, source: NameSource, owner: int, onlyIf: Option<NameSource>, now: nat)
      returns (d: Option<Document>)
      modifies this`docs
      ensures docs ==
              if id in old(docs) && old(docs)[id].owner == owner && (onlyIf == None || Some(old(docs)[id].nameSource) == onlyIf)
              then old(docs)[id := old(docs)[id].(name := name, nameSource := source, updatedAt := now)]
              else old(docs)
      ensures d == if id in docs && docs[id].owner == owner then Some(docs[id]) else None
    {
      if id in docs && docs[id].owner == owner && (onlyIf.None? || docs[id].nameSource == onlyIf.value) {
        docs := docs[id := Renamed(docs[id], name, source, now)];
      }
      d := GetDocument(id, owner);
    }

    method Move(id: int, folder: Option<int>, owner: int, now: nat) returns (d: Option<Document>)
      modifies this`docs
      ensures docs ==
              if id in old(docs) && old(docs)[id].owner == owner
              then old(docs)[id := old(docs)[id].(folder := folder, updatedAt := now)] else old(docs)
      ensures d == if id in docs && docs[id].owner == owner then Some(docs[id]) else None
    {
      if id !in docs || docs[id].owner != owner { return None; }
      docs := docs[id := docs[id].(folder := folder, updatedAt := now)];
      d := GetDocument(id, owner);
    }

    method DeleteDocument(id: int, owner: int) returns (deleted: bool)
      modifies this`docs
      ensures deleted == (id in old(docs) && old(docs)[id].owner == owner)
      ensures docs == if deleted then old(docs) - {id} else old(docs)
    {
      deleted := id in docs && docs[id].owner == owner;
      if deleted {
        docs := docs - {id};
      }
    }
  }

  function NewDocument(name: string, source: NameSource, content: Content, settings: Settings,
                       folder: Option<int>, owner: int, now: nat): Document {
    Document(owner, name, source, content, settings, folder, now,
             if content.findings != [] || content.scorecard.Some? then Some(now) else None, 0, now)
  }
}

/** Clients, the auto-titler and the sidebar interleaved over one store. */
module DocumentProofs {
  import opened Wrappers
  import opened Documents

  // A client may only send revisions it was handed: by a read, a response, or
  // a conflict report. `born` and `log` remember each document's first version
  // and the fields of every update committed to it, in order.
  datatype System = System(
    docs: Docs, nextId: int, pending: map<int, Pending>,
    handed: set<(int, nat)>, born: map<int, Version>, log: map<int, seq<Fields>>)

  // `titled` is the last title that has reached the document since the read.
  datatype Pending = Pending(id: int, owner: int, base: nat, fields: Fields, read: Document,
                             titled: Option<(string, NameSource)>)
  datatype Version = Version(content: Content, settings: Settings)

  const INITIAL := System(map[], 0, map[], {}, map[], map[])

  datatype Step =
    | Create(owner: int, name: string, source: NameSource, content: Content, settings: Settings,
             folder: Option<int>, now: nat)
    | Get(id: int, owner: int)
    | BeginUpdate(task: int, id: int, owner: int, base: nat, fields: Fields)
    | CommitUpdate(task: int, now: nat)
    | AutoTitle(id: int, owner: int, name: string, source: NameSource, now: nat)
    | MoveTo(id: int, owner: int, folder: Option<int>, now: nat)
    | DeleteFolder(gone: int, owner: int)
    | Delete(id: int, owner: int)

  predicate Enabled(s: System, step: Step) {
    match step
    case BeginUpdate(task, id, _, base, _) => task !in s.pending && (id, base) in s.handed
    case CommitUpdate(task, _) => task in s.pending
    case AutoTitle(_, _, _, source, _) => source != User
    case _ => true
  }

  function VersionOf(d: Document): Version {
    Version(d.content, d.settings)
  }

  function Overlay(v: Version, f: Fields): Version {
    Version(if f.content.Some? then f.content.value else v.content,
            if f.settings.Some? then f.settings.value else v.settings)
  }

  function Replay(v: Version, fs: seq<Fields>): Version {
    if fs == [] then v else Overlay(Replay(v, fs[..|fs| - 1]), fs[|fs| - 1])
  }

  function Hand(s: System, id: int, owner: int): System {
    if Visible(s.docs, id, owner) then s.(handed := s.handed + {(id, s.docs[id].revision)}) else s
  }

  /** A title takes effect only over a fallback name. */
  predicate TitleTakes(docs: Docs, id: int, owner: int) {
    Visible(docs, id, owner) && docs[id].nameSource == Fallback
  }

  function Titled(pending: map<int, Pending>, id: int, title: (string, NameSource)): map<int, Pending> {
    map t | t in pending :: if pending[t].id == id then pending[t].(titled := Some(title)) else pending[t]
  }

  function TitleStep(s: System, id: int, owner: int, name: string, source: NameSource, now: nat): System {
    s.(docs := SetName(s.docs, id, name, source, owner, Some(Fallback), now),
       pending := if TitleTakes(s.docs, id, owner) then Titled(s.pending, id, (name, source)) else s.pending)
  }

  function LogOf(s: System, id: int): seq<Fields> {
    if id in s.log then s.log[id] else []
  }

  function Commit(s: System, task: int, now: nat): System
    requires task in s.pending
  {
    var p := s.pending[task];
    var s1 := s.(docs := WriteUpdate(s.docs, p.id, p.base, p.owner, Merged(p.read, p.fields, now), now),
                 pending := s.pending - {task},
                 log := if Current(s.docs, p.id, p.base, p.owner)
                        then s.log[p.id := LogOf(s, p.id) + [p.fields]] else s.log);
    Hand(s1, p.id, p.owner)
  }

  function Next(s: System, step: Step): System
    requires Enabled(s, step)
  {
    match step
    case Create(owner, name, source, content, settings, folder, now) =>
      var d := NewDocument(name, source, content, settings, folder, owner, now);
      Hand(s.(docs := s.docs[s.nextId := d], nextId := s.nextId + 1,
              born := s.born[s.nextId := VersionOf(d)], log := s.log[s.nextId := []]), s.nextId, owner)
    case Get(id, owner) => Hand(s, id, owner)
    case BeginUpdate(task, id, owner, base, fields) =>
      if Visible(s.docs, id, owner)
      then s.(pending := s.pending[task := Pending(id, owner, base, fields, s.docs[id], None)])
      else s
    case CommitUpdate(task, now) => Commit(s, task, now)
    case AutoTitle(id, owner, name, source, now) =>
      Hand(TitleStep(s, id, owner, name, source, now), id, owner)
    case MoveTo(id, owner, folder, now) =>
      Hand(s.(docs := SetFolder(s.docs, id, folder, owner, now)), id, owner)
    case DeleteFolder(gone, owner) => s.(docs := Unfile(s.docs, gone, owner))
    case Delete(id, owner) => if Visible(s.docs, id, owner) then s.(docs := s.docs - {id}) else s
  }

  function After(steps: seq<Step>): Option<System> {
    if steps == [] then Some(INITIAL)
    else
      match After(steps[..|steps| - 1])
      case None => None
      case Some(s) => if Enabled(s, steps[|steps| - 1]) then Some(Next(s, steps[|steps| - 1])) else None
  }

  // ---- The invariant ----

  /** A request's base was handed out before it read, and what it read is
      still current unless an update has been committed since. */
  predicate PendingRight(docs: Docs, p: Pending) {
    && p.base <= p.read.revision && p.read.owner == p.owner
    && (p.id in docs ==>
          var d := docs[p.id];
          && d.owner == p.owner
          && p.read.revision <= d.revision
          && (p.read.revision == d.revision ==>
                && VersionOf(p.read) == VersionOf(d)
                && (d.nameSource == User ==> p.read.name == d.name && p.read.nameSource == User)
                && NameFollows(p, d)))
  }

  /** A settled name is as it was read; a fallback name is as it was read or
      as the last title since then made it. */
  predicate NameFollows(p: Pending, d: Document) {
    if p.read.nameSource != Fallback || p.titled.None? then d.name == p.read.name && d.nameSource == p.read.nameSource
    else d.name == p.titled.value.0 && d.nameSource == p.titled.value.1
  }

  predicate Logged(s: System, id: int)
    requires id in s.docs
  {
    && id in s.born && id in s.log
    && s.docs[id].revision == |s.log[id]|
    && VersionOf(s.docs[id]) == Replay(s.born[id], s.log[id])
  }

  ghost predicate Inv(s: System) {
    && (forall id :: id in s.docs ==> id < s.nextId && Logged(s, id))
    && (forall h :: h in s.handed ==> h.0 < s.nextId && (h.0 in s.docs ==> h.1 <= s.docs[h.0].revision))
    && (forall t :: t in s.pending ==> s.pending[t].id < s.nextId && PendingRight(s.docs, s.pending[t]))
  }

  /** A change of one document that leaves its revision, version and name alone. */
  predicate Harmless(d: Document, d': Document) {
    && d'.owner == d.owner && d'.revision == d.revision && VersionOf(d') == VersionOf(d)
    && d'.name == d.name && d'.nameSource == d.nameSource
  }

  lemma HarmlessKeeps(s: System, docs': Docs)
    requires Inv(s)
    requires docs'.Keys <= s.docs.Keys && forall id :: id in docs' ==> Harmless(s.docs[id], docs'[id])
    ensures Inv(s.(docs := docs'))
  {
    var s' := s.(docs := docs');
    forall id | id in docs' ensures Logged(s', id) {
      assert Logged(s, id);
    }
    forall t | t in s.pending ensures PendingRight(docs', s.pending[t]) {
      assert PendingRight(s.docs, s.pending[t]);
    }
  }

  lemma TitleKeeps(s: System, id: int, owner: int, name: string, source: NameSource, now: nat)
    requires Inv(s) && source != User
    ensures Inv(TitleStep(s, id, owner, name, source, now))
  {
    var s' := TitleStep(s, id, owner, name, source, now);
    forall i | i in s'.docs ensures Logged(s', i) {
      assert Logged(s, i);
    }
    forall t | t in s'.pending ensures s'.pending[t].id < s'.nextId && PendingRight(s'.docs, s'.pending[t]) {
      assert PendingRight(s.docs, s.pending[t]);
    }
  }

  lemma HandKeeps(s: System, id: int, owner: int)
    requires Inv(s)
    ensures Inv(Hand(s, id, owner))
  {
    var s' := Hand(s, id, owner);
    forall i | i in s'.docs ensures Logged(s', i) {
      assert Logged(s, i);
    }
  }

  lemma CreateKeeps(s: System, d: Document)
    requires Inv(s) && d.revision == 0
    ensures Inv(s.(docs := s.docs[s.nextId := d], nextId := s.nextId + 1,
                   born := s.born[s.nextId := VersionOf(d)], log := s.log[s.nextId := []]))
  {
    var s' := s.(docs := s.docs[s.nextId := d], nextId := s.nextId + 1,
                 born := s.born[s.nextId := VersionOf(d)], log := s.log[s.nextId := []]);
    forall id | id in s'.docs ensures Logged(s', id) {
      assert id != s.nextId ==> Logged(s, id);
    }
    forall t | t in s.pending ensures PendingRight(s'.docs, s.pending[t]) {
      assert PendingRight(s.docs, s.pending[t]);
    }
  }

  /** The heart of it: when the conditional write goes through, the request
      read the very revision it was based on. */
  lemma CommitIsOnBase(s: System, task: int)
    requires Inv(s) && task in s.pending
    requires Current(s.docs, s.pending[task].id, s.pending[task].base, s.pending[task].owner)
    ensures var p := s.pending[task];
            && p.read.revision == p.base == s.docs[p.id].revision
            && VersionOf(p.read) == VersionOf(s.docs[p.id])
  {
    assert PendingRight(s.docs, s.pending[task]);
  }

  lemma ReplayAppend(v: Version, fs: seq<Fields>, f: Fields)
    ensures Replay(v, fs + [f]) == Overlay(Replay(v, fs), f)
  {
    assert (fs + [f])[..|fs|] == fs;
  }

  lemma CommitKeeps(s: System, task: int, now: nat)
    requires Inv(s) && task in s.pending
    ensures Inv(Commit(s, task, now))
  {
    var p := s.pending[task];
    var s1 := s.(docs := WriteUpdate(s.docs, p.id, p.base, p.owner, Merged(p.read, p.fields, now), now),
                 pending := s.pending - {task},
                 log := if Current(s.docs, p.id, p.base, p.owner)
                        then s.log[p.id := LogOf(s, p.id) + [p.fields]] else s.log);
    if Current(s.docs, p.id, p.base, p.owner) {
      CommitIsOnBase(s, task);
      assert Logged(s, p.id);
      ReplayAppend(s.born[p.id], s.log[p.id], p.fields);
      forall id | id in s1.docs ensures Logged(s1, id) {
        assert Logged(s, id);
      }
      forall t | t in s1.pending ensures PendingRight(s1.docs, s1.pending[t]) {
        assert PendingRight(s.docs, s.pending[t]);
      }
    } else {
      forall id | id in s1.docs ensures Logged(s1, id) {
        assert Logged(s, id);
      }
    }
    HandKeeps(s1, p.id, p.owner);
  }

  lemma StepKeeps(s: System, step: Step)
    requires Inv(s) && Enabled(s, step)
    ensures Inv(Next(s, step))
  {
    match step
    case Create(owner, name, source, content, settings, folder, now) =>
      var d := NewDocument(name, source, content, settings, folder, owner, now);
      CreateKeeps(s, d);
      HandKeeps(s.(docs := s.docs[s.nextId := d], nextId := s.nextId + 1,
                   born := s.born[s.nextId := VersionOf(d)], log := s.log[s.nextId := []]), s.nextId, owner);
    case Get(id, owner) => HandKeeps(s, id, owner);
    case BeginUpdate(task, id, owner, base, fields) => BeginKeeps(s, step);
    case CommitUpdate(task, now) => CommitKeeps(s, task, now);
    case AutoTitle(id, owner, name, source, now) =>
      TitleKeeps(s, id, owner, name, source, now);
      HandKeeps(TitleStep(s, id, owner, name, source, now), id, owner);
    case MoveTo(id, owner, folder, now) =>
      HarmlessKeeps(s, SetFolder(s.docs, id, folder, owner, now));
      HandKeeps(s.(docs := SetFolder(s.docs, id, folder, owner, now)), id, owner);
    case DeleteFolder(gone, owner) => HarmlessKeeps(s, Unfile(s.docs, gone, owner));
    case Delete(id, owner) =>
      if Visible(s.docs, id, owner) { HarmlessKeeps(s, s.docs - {id}); }
  }

  lemma BeginKeeps(s: System, step: Step)
    requires Inv(s) && Enabled(s, step) && step.BeginUpdate?
    ensures Inv(Next(s, step))
  {
    var s' := Next(s, step);
    forall id | id in s'.docs ensures Logged(s', id) {
      assert Logged(s, id);
    }
    assert (step.id, step.base) in s.handed;
  }

  lemma {:induction false} RunKeeps(steps: seq<Step>)
    requires After(steps).Some?
    ensures Inv(After(steps).value)
  {
    if steps != [] {
      RunKeeps(steps[..|steps| - 1]);
      StepKeeps(After(steps[..|steps| - 1]).value, steps[|steps| - 1]);
    }
  }

  // ---- Theorems ----

  /** The creations of a run, in order; documents are numbered by them. */
  function Creations(steps: seq<Step>): seq<Step> {
    if steps == [] then []
    else Creations(steps[..|steps| - 1]) + if steps[|steps| - 1].Create? then [steps[|steps| - 1]] else []
  }

  predicate BornAsAsked(s: System, created: seq<Step>, id: int) {
    id in s.docs ==>
      && 0 <= id < |created| && created[id].Create? && s.docs[id].owner == created[id].owner
      && id in s.born && s.born[id] == Version(created[id].content, created[id].settings)
  }

  lemma {:induction false} BirthsAreCreations(steps: seq<Step>, id: int)
    requires After(steps).Some?
    ensures After(steps).value.nextId == |Creations(steps)|
    ensures BornAsAsked(After(steps).value, Creations(steps), id)
  {
    if steps != [] {
      BirthsAreCreations(steps[..|steps| - 1], id);
      StepWrites(After(steps[..|steps| - 1]).value, steps[|steps| - 1], id);
    }
  }

  /** Every document is what its creation asked for with every committed update
      laid over it in order, and its revision counts them. */
  lemma NoLostUpdate(steps: seq<Step>, id: int)
    requires After(steps).Some? && id in After(steps).value.docs
    ensures var s, created := After(steps).value, Creations(steps);
            && 0 <= id < |created| && created[id].Create? && id in s.log
            && VersionOf(s.docs[id]) == Replay(Version(created[id].content, created[id].settings), s.log[id])
            && s.docs[id].revision == |s.log[id]|
  {
    RunKeeps(steps);
    BirthsAreCreations(steps, id);
    assert Logged(After(steps).value, id);
  }

  // ---- Every document after every step ----

  /** What a step makes of the document with an id, present or not. */
  predicate Wrote(s: System, step: Step, id: int, d: Option<Document>, d': Option<Document>)
    requires Enabled(s, step)
  {
    match step
    case Create(owner, name, source, content, settings, folder, now) =>
      if id == s.nextId then d'.Some? && IsCreationOf(d'.value, name, source, content, settings, folder, owner, now)
      else d' == d
    case CommitUpdate(task, now) =>
      var p := s.pending[task];
      if id == p.id && d.Some? && d.value.owner == p.owner && d.value.revision == p.base
      then d'.Some? && IsUpdateOf(d'.value, p.read, d.value, p.fields, now)
      else d' == d
    case AutoTitle(titled, owner, name, source, now) =>
      d' == if id == titled && d.Some? && d.value.owner == owner && d.value.nameSource == Fallback
            then Some(d.value.(name := name, nameSource := source, updatedAt := now)) else d
    case MoveTo(moved, owner, folder, now) =>
      d' == if id == moved && d.Some? && d.value.owner == owner
            then Some(d.value.(folder := folder, updatedAt := now)) else d
    case DeleteFolder(gone, owner) =>
      d' == if d.Some? && d.value.owner == owner && d.value.folder == Some(gone)
            then Some(d.value.(folder := None)) else d
    case Delete(deleted, owner) =>
      d' == if id == deleted && d.Some? && d.value.owner == owner then None else d
    case Get(_, _) => d' == d
    case BeginUpdate(_, _, _, _, _) => d' == d
  }

  lemma StepWrites(s: System, step: Step, id: int)
    requires Enabled(s, step)
    ensures Wrote(s, step, id, Lookup(s.docs, id), Lookup(Next(s, step).docs, id))
  {
    if step.CommitUpdate? {
      CommitWrites(s, step.task, step.now, id);
    } else if step.AutoTitle? || step.MoveTo? {
    } else {
    }
  }

  lemma CommitWrites(s: System, task: int, now: nat, id: int)
    requires task in s.pending
    ensures Wrote(s, CommitUpdate(task, now), id, Lookup(s.docs, id), Lookup(Commit(s, task, now).docs, id))
  {
  }

  /** In every run, at every step, every document becomes exactly what the step
      says of it, and a document of someone else stays as it is. */
  lemma DocumentsFollowSteps(steps: seq<Step>, step: Step, id: int)
    requires After(steps).Some? && Enabled(After(steps).value, step)
    ensures var s := After(steps).value;
            && Wrote(s, step, id, Lookup(s.docs, id), Lookup(Next(s, step).docs, id))
            && (id in s.docs && Actor(s, step).Some? && s.docs[id].owner != Actor(s, step).value ==>
                  id in Next(s, step).docs && Next(s, step).docs[id] == s.docs[id])
  {
    RunKeeps(steps);
    StepWrites(After(steps).value, step, id);
  }

  /** Whose request a step carries out. */
  function Actor(s: System, step: Step): Option<int>
    requires Enabled(s, step)
  {
    match step
    case CommitUpdate(task, _) => Some(s.pending[task].owner)
    case _ => Some(step.owner)
  }

  /** A write that goes through overlays exactly the base revision; one that
      does not changes no document. */
  lemma CommitOverlaysBase(steps: seq<Step>, task: int, now: nat)
    requires After(steps).Some? && task in After(steps).value.pending
    ensures var s := After(steps).value;
            var p := s.pending[task];
            var s' := Next(s, CommitUpdate(task, now));
            if Current(s.docs, p.id, p.base, p.owner) then
              && p.id in s'.docs
              && p.read.revision == p.base == s.docs[p.id].revision
              && s'.docs[p.id].revision == p.base + 1
              && VersionOf(s'.docs[p.id]) == Overlay(VersionOf(s.docs[p.id]), p.fields)
              && (forall id :: id in s.docs && id != p.id ==> id in s'.docs && s'.docs[id] == s.docs[id])
            else
              s'.docs == s.docs
  {
    RunKeeps(steps);
    var s := After(steps).value;
    if Current(s.docs, s.pending[task].id, s.pending[task].base, s.pending[task].owner) {
      CommitIsOnBase(s, task);
    }
  }

  /** Once the name is the user's, only an update that carries a name changes
      it, whatever reads, titles and saves are in flight. */
  lemma UserNameSticks(steps: seq<Step>, step: Step, id: int)
    requires After(steps).Some? && Enabled(After(steps).value, step)
    requires id in After(steps).value.docs && After(steps).value.docs[id].nameSource == User
    requires id in Next(After(steps).value, step).docs
    ensures var s := After(steps).value;
            var d' := Next(s, step).docs[id];
            || (d'.name == s.docs[id].name && d'.nameSource == User)
            || (step.CommitUpdate? && s.pending[step.task].id == id
                && s.pending[step.task].fields.name == Some(d'.name) && d'.nameSource == User)
  {
    RunKeeps(steps);
    var s := After(steps).value;
    if step.CommitUpdate? {
      assert PendingRight(s.docs, s.pending[step.task]);
    }
  }

  /** A document's folder is whatever the last move or folder deletion made
      it: updates and titles never touch it, and only updates move revisions. */
  lemma FolderAndRevisionMoveApart(steps: seq<Step>, step: Step, id: int)
    requires After(steps).Some? && Enabled(After(steps).value, step)
    requires id in After(steps).value.docs && id in Next(After(steps).value, step).docs
    ensures var s := After(steps).value;
            var d, d' := s.docs[id], Next(s, step).docs[id];
            && (d'.folder != d.folder ==>
                  || (step.MoveTo? && step.id == id && step.owner == d.owner && d'.folder == step.folder)
                  || (step.DeleteFolder? && d.folder == Some(step.gone) && d'.folder == None))
            && (d'.revision != d.revision ==> step.CommitUpdate? && d'.revision == d.revision + 1)
  {
    RunKeeps(steps);
  }

  /** A committed update without a name leaves name and source as stored
      exactly when it read a settled name, or no title has reached the document
      since, or the last one to do so set again what was read... */
  lemma NamelessCommitKeepsName(steps: seq<Step>, task: int, now: nat)
    requires After(steps).Some? && task in After(steps).value.pending
    requires After(steps).value.pending[task].fields.name.None?
    requires var s := After(steps).value;
             var p := s.pending[task];
             Current(s.docs, p.id, p.base, p.owner)
    ensures var s := After(steps).value;
            var p := s.pending[task];
            var d, d' := s.docs[p.id], Next(s, CommitUpdate(task, now)).docs[p.id];
            d'.name == d.name && d'.nameSource == d.nameSource
            <==> p.read.nameSource != Fallback || p.titled.None? || p.titled == Some((p.read.name, Fallback))
  {
    RunKeeps(steps);
    var s := After(steps).value;
    assert PendingRight(s.docs, s.pending[task]);
    CommitIsOnBase(s, task);
  }

  /** ...so a title set between the read of a fallback name and the write is
      undone by the write. */
  lemma NamelessCommitUndoesTitle(s: System, task: int, id: int, owner: int, base: nat, fields: Fields,
                                  title: string, t1: nat, t2: nat)
    requires task !in s.pending && (id, base) in s.handed && Visible(s.docs, id, owner)
    requires s.docs[id].revision == base && s.docs[id].nameSource == Fallback && fields.name.None?
    ensures var s1 := Next(s, BeginUpdate(task, id, owner, base, fields));
            var s2 := Next(s1, AutoTitle(id, owner, title, Llm, t1));
            var s3 := Next(s2, CommitUpdate(task, t2));
            && s2.docs[id].name == title && s2.docs[id].nameSource == Llm
            && s3.docs[id].name == s.docs[id].name && s3.docs[id].nameSource == Fallback
  {
  }

  /** Why clients must send only revisions they were handed: one that guesses
      the next revision overwrites the update that creates it. */
  lemma GuessedRevisionLosesUpdate(docs: Docs, id: int, owner: int, f: Fields, g: Fields, t1: nat, t2: nat)
    requires Visible(docs, id, owner) && f.content.Some? && f.content.value != docs[id].content
    requires g.content.None? && g.settings.None?
    ensures var base := docs[id].revision;
            var read := docs[id];
            var docs1 := WriteUpdate(docs, id, base, owner, Merged(docs[id], f, t1), t1);
            var docs2 := WriteUpdate(docs1, id, base + 1, owner, Merged(read, g, t2), t2);
            && docs1[id].content == f.content.value
            && docs2[id].content == docs[id].content != f.content.value
  {
  }
}
