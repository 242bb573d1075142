/** Local user rows, and the mapping of verified subjects onto them. */
module Identity {
  import opened Wrappers
  import opened Text

  /** Rows are numbered in creation order and are never deleted. */
  datatype User = User(id: nat, email: string, externalId: Option<string>)

  datatype Rejection = EmailOwned | AdoptionLost | NoEmail | ProvisioningLost | BadEmail | Conflict

  datatype Outcome = Resolved(user: User) | Rejected(reason: Rejection)

  function FindExternal(users: seq<User>, subject: string): (r: Option<User>)
    ensures r.Some? ==> r.value in users && r.value.externalId == Some(subject)
    ensures r.None? ==> forall u :: u in users ==> u.externalId != Some(subject)
  {
    if users == [] then None
    else if users[0].externalId == Some(subject) then Some(users[0])
    else FindExternal(users[1..], subject)
  }

  /** Stored addresses are stripped already and keep the user's case. */
  function FindEmail(users: seq<User>, email: string): (r: Option<User>)
    ensures r.Some? ==> r.value in users && Lower(r.value.email) == NormalEmail(email)
    ensures r.None? ==> forall u :: u in users ==> Lower(u.email) != NormalEmail(email)
  {
    if users == [] then None
    else if Lower(users[0].email) == NormalEmail(email) then Some(users[0])
    else FindEmail(users[1..], email)
  }

  function GetRow(users: seq<User>, id: nat): Option<User> {
    if id < |users| then Some(users[id]) else None
  }

  datatype CreateResult = Made(user: User) | Invalid | Duplicate

  predicate Clashes(users: seq<User>, email: string, externalId: Option<string>) {
    || FindEmail(users, email).Some?
    || (externalId.Some? && FindExternal(users, externalId.value).Some?)
  }

  function CreateOutcome(users: seq<User>, email: string, externalId: Option<string>): CreateResult {
    if Strip(email) == "" then Invalid
    else if Clashes(users, email, externalId) then Duplicate
    else Made(User(|users|, Strip(email), externalId))
  }

  function AfterCreate(users: seq<User>, email: string, externalId: Option<string>): seq<User> {
    var r := CreateOutcome(users, email, externalId);
    if r.Made? then users + [r.user] else users
  }

  predicate CanLink(users: seq<User>, id: nat, subject: string) {
    id < |users| && users[id].externalId.None? && FindExternal(users, subject).None?
  }

  function AfterLink(users: seq<User>, id: nat, subject: string): seq<User> {
    if CanLink(users, id, subject) then users[id := users[id].(externalId := Some(subject))] else users
  }

  /** The table with a row in its place, or added at the end. */
  function Put(users: seq<User>, user: User): seq<User> {
    if user.id < |users| then users[user.id := user] else users + [user]
  }

  predicate UsersRight(users: seq<User>) {
    && (forall i :: 0 <= i < |users| ==> users[i].id == i)
    && (forall i, j :: 0 <= i < j < |users| ==> Lower(users[i].email) != Lower(users[j].email))
    && (forall i, j :: 0 <= i < j < |users| && users[i].externalId.Some? ==>
          users[i].externalId != users[j].externalId)
  }

  class UserStore {
    var users: seq<User>

    constructor ()
      ensures users == []
    {
      users := [];
    }

    method CreateUser(email: string, externalId: Option<string>) returns (r: CreateResult)
      modifies this
      ensures r == CreateOutcome(old(users), email, externalId)
      ensures users == AfterCreate(old(users), email, externalId)
    {
      var stripped := Strip(email);
      if stripped == "" { return Invalid; }
      if Clashes(users, email, externalId) { return Duplicate; }
      var user := User(|users|, stripped, externalId);
      users := users + [user];
      r := Made(user);
    }

    method LinkExternalId(id: nat, subject: string) returns (linked: bool)
      modifies this
      ensures linked == CanLink(old(users), id, subject) && users == AfterLink(old(users), id, subject)
    {
      linked := id < |users| && users[id].externalId.None? && FindExternal(users, subject).None?;
      if linked {
        users := users[id := users[id].(externalId := Some(subject))];
      }
    }

    /** Reads the row back, whoever linked it. */
    method AfterLinkAttempt(id: nat, subject: string, linked: bool) returns (r: Outcome)
      ensures r == if id < |users| && (linked || users[id].externalId == Some(subject)) then Resolved(users[id])
                   else Rejected(if linked then AdoptionLost else EmailOwned)
    {
      var row := GetRow(users, id);
      if linked {
        if row.None? { return Rejected(AdoptionLost); }
        return Resolved(row.value);
      }
      if row.Some? && row.value.externalId == Some(subject) { return Resolved(row.value); }
      r := Rejected(EmailOwned);
    }

    /** A duplicate may be this subject's own concurrent creation. */
    method AfterDuplicate(subject: string) returns (r: Outcome)
      ensures FindExternal(users, subject).Some? ==> r == Resolved(FindExternal(users, subject).value)
      ensures FindExternal(users, subject).None? ==> r == Rejected(ProvisioningLost)
    {
      var raced := FindExternal(users, subject);
      r := if raced.Some? then Resolved(raced.value) else Rejected(ProvisioningLost);
    }

    /** With nothing in between: the subject's own row, else the row that owns
        the address when it is unlinked, else a new row; and every refusal
        leaves the store as it was. */
    method ResolveSupabaseUser(subject: string, email: Option<string>) returns (r: Outcome)
      requires UsersRight(users)
      modifies this
      ensures UsersRight(users)
      ensures r.Rejected? ==> users == old(users)
      ensures r.Resolved? ==> r.user in users && r.user.externalId == Some(subject)
      ensures r.Resolved? ==>
                if FindExternal(old(users), subject).Some? then
                  users == old(users) && r.user == FindExternal(old(users), subject).value
                else
                  && email.Some? && Lower(r.user.email) == NormalEmail(email.value)
                  && (r.user.id < |old(users)| <==> FindEmail(old(users), email.value).Some?)
                  && (r.user.id < |old(users)| ==> old(users)[r.user.id].externalId.None?)
                  && users == Put(old(users), r.user)
      ensures r == Rejected(NoEmail) <==>
                FindExternal(old(users), subject).None? && (email.None? || email.value == "")
      ensures r == Rejected(BadEmail) <==>
                && FindExternal(old(users), subject).None? && email.Some? && email.value != ""
                && FindEmail(old(users), email.value).None? && Strip(email.value) == ""
      ensures r == Rejected(EmailOwned) <==>
                && FindExternal(old(users), subject).None? && email.Some? && email.value != ""
                && FindEmail(old(users), email.value).Some?
                && FindEmail(old(users), email.value).value.externalId.Some?
      ensures r.Rejected? ==> r.reason in {NoEmail, BadEmail, EmailOwned}
    {
      var user := FindExternal(users, subject);
      if user.Some? { return Resolved(user.value); }
      if email.None? || email.value == "" { return Rejected(NoEmail); }
      var existing := FindEmail(users, email.value);
      if existing.Some? {
        if existing.value.externalId.Some? { return Rejected(EmailOwned); }
        var linked := LinkExternalId(existing.value.id, subject);
        r := AfterLinkAttempt(existing.value.id, subject, linked);
        return;
      }
      CreateKeeps(users, email.value, Some(subject));
      var made := CreateUser(email.value, Some(subject));
      match made
      case Made(created) => r := Resolved(created);
      case Invalid => r := Rejected(BadEmail);
      case Duplicate =>
        r := AfterDuplicate(subject);
    }
  }

  /** A creation is refused for a blank address, or for one of a stored row in
      any case, or for a subject that has a row; else it adds the stripped one. */
  lemma CreateDecides(users: seq<User>, email: string, externalId: Option<string>)
    ensures var r := CreateOutcome(users, email, externalId);
            var clash := exists u :: u in users &&
                           (Lower(u.email) == Lower(Strip(email)) || (externalId.Some? && u.externalId == externalId));
            && (r == Invalid <==> Strip(email) == "")
            && (r == Duplicate <==> Strip(email) != "" && clash)
            && (r.Made? ==> r.user == User(|users|, Strip(email), externalId)
                            && AfterCreate(users, email, externalId) == users + [r.user])
            && (!r.Made? ==> AfterCreate(users, email, externalId) == users)
  {
  }

  /** A link is made exactly to an unlinked row, for a subject without one. */
  lemma LinkDecides(users: seq<User>, id: nat, subject: string)
    ensures CanLink(users, id, subject) <==>
              id < |users| && users[id].externalId == None && forall u :: u in users ==> u.externalId != Some(subject)
    ensures var users' := AfterLink(users, id, subject);
            && |users'| == |users|
            && forall i :: 0 <= i < |users| ==>
                 users'[i] == if i == id && CanLink(users, id, subject)
                              then users[i].(externalId := Some(subject)) else users[i]
  {
  }

  lemma CreateKeeps(users: seq<User>, email: string, externalId: Option<string>)
    requires UsersRight(users)
    ensures UsersRight(AfterCreate(users, email, externalId))
  {
  }
}

/** Sign-ins, admin adoptions and creations interleaved statement by statement. */
module IdentityProofs {
  import opened Wrappers
  import opened Text
  import opened Identity

  // Where a request stands between its statements.
  datatype Pc =
    | Start
    | ByEmail
    | Linking(id: nat)
    | Linked(id: nat)
    | LinkLost(id: nat)
    | Creating
    | Rereading
    | Ended(outcome: Outcome)

  // A sign-in starts at `Start`; an admin's adoption of a row it has read
  // starts at `Linking` and reports a conflict where a sign-in is refused.
  datatype Task = Task(subject: string, email: Option<string>, admin: bool, pc: Pc)

  datatype System = System(users: seq<User>, tasks: map<int, Task>)

  datatype Step =
    | SignIn(task: int, subject: string, email: Option<string>)
    | Adopt(task: int, subject: string, id: nat)
    | CreateRow(address: string, externalId: Option<string>)
    | Advance(task: int)

  const INITIAL := System([], map[])

  predicate Enabled(s: System, step: Step) {
    match step
    case SignIn(task, _, _) => task !in s.tasks
    case Adopt(task, _, id) => task !in s.tasks && id < |s.users|
    case CreateRow(_, _) => true
    case Advance(task) => task in s.tasks && !s.tasks[task].pc.Ended?
  }

  function Refusal(t: Task, reason: Rejection): Pc {
    Ended(Rejected(if t.admin then Conflict else reason))
  }

  /** What the request's next statement leaves it at. */
  function NextPc(users: seq<User>, t: Task): Pc {
    match t.pc
    case Start =>
      var user := FindExternal(users, t.subject);
      if user.Some? then Ended(Resolved(user.value))
      else if t.email.None? || t.email.value == "" then Ended(Rejected(NoEmail))
      else ByEmail
    case ByEmail =>
      var existing := if t.email.Some? then FindEmail(users, t.email.value) else None;
      if existing.None? then Creating
      else if existing.value.externalId.Some? then Ended(Rejected(EmailOwned))
      else Linking(existing.value.id)
    case Linking(id) => if CanLink(users, id, t.subject) then Linked(id) else LinkLost(id)
    case Linked(id) =>
      var row := GetRow(users, id);
      if row.Some? then Ended(Resolved(row.value))
      else if t.admin then LinkLost(id)
      else Ended(Rejected(AdoptionLost))
    case LinkLost(id) =>
      var row := GetRow(users, id);
      if row.Some? && row.value.externalId == Some(t.subject) then Ended(Resolved(row.value))
      else Refusal(t, EmailOwned)
    case Creating =>
      var made := CreateOutcome(users, if t.email.Some? then t.email.value else "", Some(t.subject));
      (match made
       case Made(user) => Ended(Resolved(user))
       case Invalid => Ended(Rejected(BadEmail))
       case Duplicate => Rereading)
    case Rereading =>
      var raced := FindExternal(users, t.subject);
      if raced.Some? then Ended(Resolved(raced.value)) else Ended(Rejected(ProvisioningLost))
    case Ended(_) => t.pc
  }

  /** What the request's next statement does to the table. */
  function NextUsers(users: seq<User>, t: Task): seq<User> {
    match t.pc
    case Linking(id) => AfterLink(users, id, t.subject)
    case Creating => AfterCreate(users, if t.email.Some? then t.email.value else "", Some(t.subject))
    case _ => users
  }

  function Next(s: System, step: Step): System
    requires Enabled(s, step)
  {
    match step
    case SignIn(task, subject, email) => s.(tasks := s.tasks[task := Task(subject, email, false, Start)])
    case Adopt(task, subject, id) => s.(tasks := s.tasks[task := Task(subject, None, true, Linking(id))])
    case CreateRow(email, externalId) => s.(users := AfterCreate(s.users, email, externalId))
    case Advance(task) =>
      var t := s.tasks[task];
      System(NextUsers(s.users, t), s.tasks[task := t.(pc := NextPc(s.users, t))])
  }

  function RunFrom(s: System, steps: seq<Step>): Option<System> {
    if steps == [] then Some(s)
    else
      match RunFrom(s, steps[..|steps| - 1])
      case None => None
      case Some(m) => if Enabled(m, steps[|steps| - 1]) then Some(Next(m, steps[|steps| - 1])) else None
  }

  // ---- What time can only add to ----

  /** Rows keep their place and address, and a link once made is for good. */
  predicate Grows(a: seq<User>, b: seq<User>) {
    && |a| <= |b|
    && forall i :: 0 <= i < |a| ==>
         && a[i].id == b[i].id && a[i].email == b[i].email
         && (a[i].externalId.Some? ==> b[i].externalId == a[i].externalId)
  }

  /** Some row with this address is linked, or the subject owns a row. */
  predicate Taken(users: seq<User>, subject: string, email: Option<string>) {
    exists i :: 0 <= i < |users| && users[i].externalId.Some? &&
      (users[i].externalId == Some(subject) || (email.Some? && Lower(users[i].email) == NormalEmail(email.value)))
  }

  predicate Owns(users: seq<User>, id: nat, subject: string) {
    id < |users| && users[id].externalId == Some(subject)
  }

  predicate TaskRight(users: seq<User>, t: Task) {
    match t.pc
    case Linking(id) => id < |users| && AddressOf(users, t, id)
    case Linked(id) => Owns(users, id, t.subject)
    case LinkLost(id) => id < |users| && (t.admin || Taken(users, t.subject, t.email))
    case Ended(Resolved(u)) => Owns(users, u.id, t.subject) && users[u.id] == u
    case Ended(Rejected(reason)) => reason != AdoptionLost && (reason == EmailOwned ==> Taken(users, t.subject, t.email))
    case ByEmail => !t.admin && HasEmail(t)
    case Creating => !t.admin && HasEmail(t)
    case _ => !t.admin
  }

  predicate HasEmail(t: Task) {
    t.email.Some? && t.email.value != ""
  }

  predicate AddressOf(users: seq<User>, t: Task, id: nat) {
    id < |users| && (t.admin || (t.email.Some? && Lower(users[id].email) == NormalEmail(t.email.value)))
  }

  ghost predicate Inv(s: System) {
    UsersRight(s.users) && forall t :: t in s.tasks ==> TaskRight(s.users, s.tasks[t])
  }

  lemma NextUsersGrows(users: seq<User>, t: Task)
    requires UsersRight(users)
    ensures UsersRight(NextUsers(users, t)) && Grows(users, NextUsers(users, t))
  {
    if t.pc.Creating? {
      CreateKeeps(users, if t.email.Some? then t.email.value else "", Some(t.subject));
    }
  }

  lemma TaskStays(a: seq<User>, b: seq<User>, t: Task)
    requires Grows(a, b) && TaskRight(a, t)
    ensures TaskRight(b, t)
  {
  }

  /** The moving task itself. */
  lemma AdvanceRight(users: seq<User>, t: Task)
    requires UsersRight(users) && TaskRight(users, t)
    ensures TaskRight(NextUsers(users, t), t.(pc := NextPc(users, t)))
  {
  }

  lemma StepKeeps(s: System, step: Step)
    requires Inv(s) && Enabled(s, step)
    ensures Inv(Next(s, step)) && Grows(s.users, Next(s, step).users)
  {
    var s' := Next(s, step);
    match step {
      case CreateRow(email, externalId) => CreateKeeps(s.users, email, externalId);
      case Advance(task) =>
        NextUsersGrows(s.users, s.tasks[task]);
        AdvanceRight(s.users, s.tasks[task]);
      case _ =>
    }
    forall t | t in s'.tasks ensures TaskRight(s'.users, s'.tasks[t]) {
      if t in s.tasks && s'.tasks[t] == s.tasks[t] {
        TaskStays(s.users, s'.users, s.tasks[t]);
      }
    }
  }

  lemma GrowsOn(a: seq<User>, b: seq<User>, c: seq<User>)
    requires Grows(a, b) && Grows(b, c)
    ensures Grows(a, c)
  {
    forall i | 0 <= i < |a|
      ensures a[i].id == c[i].id && a[i].email == c[i].email && (a[i].externalId.Some? ==> c[i].externalId == a[i].externalId)
    {
      assert b[i].email == a[i].email;
    }
  }

  lemma {:induction false} RunKeeps(s: System, steps: seq<Step>)
    requires Inv(s) && RunFrom(s, steps).Some?
    ensures Inv(RunFrom(s, steps).value) && Grows(s.users, RunFrom(s, steps).value.users)
  {
    if steps != [] {
      var m := RunFrom(s, steps[..|steps| - 1]).value;
      RunKeeps(s, steps[..|steps| - 1]);
      StepKeeps(m, steps[|steps| - 1]);
      GrowsOn(s.users, m.users, Next(m, steps[|steps| - 1]).users);
    }
  }

  // ---- Theorems ----

  /** A link, once made, is never changed, whatever runs afterwards. */
  lemma ExternalIdIsForGood(before: seq<Step>, after: seq<Step>, id: nat)
    requires RunFrom(INITIAL, before).Some? && RunFrom(RunFrom(INITIAL, before).value, after).Some?
    requires id < |RunFrom(INITIAL, before).value.users|
    requires RunFrom(INITIAL, before).value.users[id].externalId.Some?
    ensures var s, s' := RunFrom(INITIAL, before).value, RunFrom(RunFrom(INITIAL, before).value, after).value;
            && id < |s'.users| && s'.users[id].id == id
            && s'.users[id].externalId == s.users[id].externalId && s'.users[id].email == s.users[id].email
  {
    RunKeeps(INITIAL, before);
    RunKeeps(RunFrom(INITIAL, before).value, after);
  }

  /** A row handed back by a sign-in or an adoption carries the caller's
      subject, and the table's row still does. */
  lemma ReturnedRowIsTheCallers(steps: seq<Step>, task: int)
    requires RunFrom(INITIAL, steps).Some? && task in RunFrom(INITIAL, steps).value.tasks
    requires var pc := RunFrom(INITIAL, steps).value.tasks[task].pc; pc.Ended? && pc.outcome.Resolved?
    ensures var s := RunFrom(INITIAL, steps).value;
            var t := s.tasks[task];
            var u := t.pc.outcome.user;
            && u.externalId == Some(t.subject)
            && u.id < |s.users| && s.users[u.id].externalId == Some(t.subject)
  {
    RunKeeps(INITIAL, steps);
    assert TaskRight(RunFrom(INITIAL, steps).value.users, RunFrom(INITIAL, steps).value.tasks[task]);
  }

  /** Two requests get the same local account exactly when they carry the same
      subject, however they interleaved and whichever way each came to it. */
  lemma OneAccountOneSubject(steps: seq<Step>, a: int, b: int)
    requires RunFrom(INITIAL, steps).Some?
    requires a in RunFrom(INITIAL, steps).value.tasks && b in RunFrom(INITIAL, steps).value.tasks
    requires var pc := RunFrom(INITIAL, steps).value.tasks[a].pc; pc.Ended? && pc.outcome.Resolved?
    requires var pc := RunFrom(INITIAL, steps).value.tasks[b].pc; pc.Ended? && pc.outcome.Resolved?
    ensures var s := RunFrom(INITIAL, steps).value;
            s.tasks[a].pc.outcome.user.id == s.tasks[b].pc.outcome.user.id
            <==> s.tasks[a].subject == s.tasks[b].subject
  {
    RunKeeps(INITIAL, steps);
    ReturnedRowIsTheCallers(steps, a);
    ReturnedRowIsTheCallers(steps, b);
  }

  /** A refusal for an owned address is never groundless, and an adoption that
      wins its update always finds its row again. */
  lemma RefusalsHaveGrounds(steps: seq<Step>, task: int, reason: Rejection)
    requires RunFrom(INITIAL, steps).Some? && task in RunFrom(INITIAL, steps).value.tasks
    requires RunFrom(INITIAL, steps).value.tasks[task].pc == Ended(Rejected(reason))
    ensures var s := RunFrom(INITIAL, steps).value;
            && reason != AdoptionLost
            && (reason == EmailOwned ==> Taken(s.users, s.tasks[task].subject, s.tasks[task].email))
  {
    RunKeeps(INITIAL, steps);
    assert TaskRight(RunFrom(INITIAL, steps).value.users, RunFrom(INITIAL, steps).value.tasks[task]);
  }

  lemma CreatedIsFound(users: seq<User>, subject: string, email: string)
    requires Strip(email) != "" && FindExternal(users, subject).None? && FindEmail(users, email).None?
    ensures var row := User(|users|, Strip(email), Some(subject));
            && CreateOutcome(users, email, Some(subject)) == Made(row)
            && AfterCreate(users, email, Some(subject)) == users + [row]
            && FindEmail(users + [row], email) == Some(row)
  {
    var row := User(|users|, Strip(email), Some(subject));
    assert row in users + [row] && Lower(row.email) == NormalEmail(email);
    var found := FindEmail(users + [row], email);
    assert found.Some? && (found.value in users || found.value == row);
  }

  /** The guard after the lookup by address does not ask whose link it found:
      a first sign-in that loses to another of the same subject between its
      two lookups is refused as if the address were someone else's. */
  lemma SameSubjectCanBeRefused(s: System, a: int, b: int, subject: string, email: string)
    requires a != b && a !in s.tasks && b !in s.tasks && Strip(email) != ""
    requires FindExternal(s.users, subject).None? && FindEmail(s.users, email).None?
    ensures var started := Next(Next(s, SignIn(a, subject, Some(email))), SignIn(b, subject, Some(email)));
            && Enabled(started, Advance(a)) && Enabled(started, Advance(b))
            && var looked := Next(Next(started, Advance(a)), Advance(b));
            && Enabled(looked, Advance(a))
            && var searched := Next(looked, Advance(a));
            && Enabled(searched, Advance(a))
            && var created := Next(searched, Advance(a));
            && created.tasks[a].pc == Ended(Resolved(User(|s.users|, Strip(email), Some(subject))))
            && Enabled(created, Advance(b))
            && Next(created, Advance(b)).tasks[b].pc == Ended(Rejected(EmailOwned))
  {
    CreatedIsFound(s.users, subject, email);
  }

  // ---- Exactly when a sign-in overtaken by its own subject succeeds ----

  /** A sign-in past its first lookup whose subject owns a row by now. */
  predicate Overtaken(s: System, task: int) {
    && task in s.tasks && !s.tasks[task].admin
    && !s.tasks[task].pc.Start? && !s.tasks[task].pc.Ended?
    && FindExternal(s.users, s.tasks[task].subject).Some?
  }

  predicate Blank(t: Task) {
    t.email.None? || Strip(t.email.value) == ""
  }

  predicate AddressFree(users: seq<User>, t: Task) {
    t.email.Some? && FindEmail(users, t.email.value).None?
  }

  /** The table that the sign-in's next statement reads in a run, if it gets
      that far. */
  function TableAtNext(s: System, steps: seq<Step>, task: int): Option<seq<User>>
    requires RunFrom(s, steps).Some?
  {
    if steps == [] then None
    else
      var front := steps[..|steps| - 1];
      var earlier := TableAtNext(s, front, task);
      if earlier.Some? then earlier
      else if steps[|steps| - 1] == Advance(task) then Some(RunFrom(s, front).value.users)
      else None
  }

  /** Whether the sign-in is given its subject's row, from where it stands, the
      row, and, between the two lookups, the table its second lookup reads. */
  predicate Succeeds(t: Task, row: User, lookup: seq<User>) {
    match t.pc
    case ByEmail => AddressFree(lookup, t) && !Blank(t)
    case Linking(id) => id == row.id
    case LinkLost(id) => id == row.id
    case Creating => !Blank(t)
    case Ended(outcome) => outcome.Resolved?
    case _ => true
  }

  lemma RowAt(users: seq<User>, row: User)
    requires UsersRight(users) && row in users
    ensures row.id < |users| && users[row.id] == row
  {
    var i :| 0 <= i < |users| && users[i] == row;
    assert users[i].id == i;
  }

  lemma OnlyOwner(users: seq<User>, row: User, subject: string)
    requires UsersRight(users) && row in users && row.externalId == Some(subject)
    ensures FindExternal(users, subject) == Some(row)
  {
    var found := FindExternal(users, subject).value;
    RowAt(users, row);
    RowAt(users, found);
    assert users[row.id].externalId == users[found.id].externalId;
  }

  lemma OwnsOnly(users: seq<User>, row: User, id: nat, subject: string)
    requires UsersRight(users) && FindExternal(users, subject) == Some(row) && id < |users|
    ensures users[id].externalId == Some(subject) <==> id == row.id
  {
    RowAt(users, row);
    if id != row.id {
      assert users[id].externalId != users[row.id].externalId;
    }
  }

  lemma OwnRowStays(a: seq<User>, b: seq<User>, subject: string)
    requires UsersRight(a) && UsersRight(b) && Grows(a, b) && FindExternal(a, subject).Some?
    ensures FindExternal(b, subject) == FindExternal(a, subject)
  {
    var row := FindExternal(a, subject).value;
    RowAt(a, row);
    assert b[row.id] == row;
    OnlyOwner(b, row, subject);
  }

  lemma AddressStaysTaken(a: seq<User>, b: seq<User>, email: string)
    requires Grows(a, b) && FindEmail(a, email).Some?
    ensures FindEmail(b, email).Some?
  {
    var i :| 0 <= i < |a| && a[i] == FindEmail(a, email).value;
    assert b[i].email == a[i].email && b[i] in b;
  }

  /** A refusal, if it has come to that, is for the address. */
  predicate RefusedForAddress(pc: Pc) {
    pc.Ended? && pc.outcome.Rejected? ==> pc.outcome.reason in {EmailOwned, BadEmail}
  }

  ghost predicate Decides(users: seq<User>, t: Task, row: User) {
    var t' := t.(pc := NextPc(users, t));
    && NextUsers(users, t) == users && !t'.pc.Start? && !t'.pc.ByEmail? && RefusedForAddress(t'.pc)
    && (Succeeds(t', row, []) <==> Succeeds(t, row, users))
  }

  lemma LookupDecides(users: seq<User>, t: Task, row: User)
    requires UsersRight(users) && t.pc.ByEmail? && HasEmail(t)
    requires FindExternal(users, t.subject) == Some(row)
    ensures Decides(users, t, row)
  {
    var existing := FindEmail(users, t.email.value);
    if existing.Some? {
      RowAt(users, existing.value);
      RowAt(users, row);
    }
  }

  lemma LinkingDecides(users: seq<User>, t: Task, row: User, id: nat)
    requires t.pc == Linking(id) && FindExternal(users, t.subject) == Some(row)
    ensures Decides(users, t, row)
  {
  }

  lemma LinkedDecides(users: seq<User>, t: Task, row: User, id: nat)
    requires t.pc == Linked(id) && Owns(users, id, t.subject)
    ensures Decides(users, t, row)
  {
  }

  lemma LinkLostDecides(users: seq<User>, t: Task, row: User, id: nat)
    requires t.pc == LinkLost(id) && id < |users| && !t.admin
    requires users[id].externalId == Some(t.subject) <==> id == row.id
    ensures Decides(users, t, row)
  {
  }

  /** One statement of the sign-in keeps what it is headed for. */
  lemma AdvanceDecides(users: seq<User>, t: Task, row: User)
    requires UsersRight(users) && TaskRight(users, t) && !t.admin && !t.pc.Start? && !t.pc.Ended?
    requires FindExternal(users, t.subject) == Some(row)
    ensures Decides(users, t, row)
  {
    match t.pc
    case ByEmail => LookupDecides(users, t, row);
    case Linking(id) => LinkingDecides(users, t, row, id);
    case Linked(id) => LinkedDecides(users, t, row, id);
    case LinkLost(id) =>
      OwnsOnly(users, row, id, t.subject);
      LinkLostDecides(users, t, row, id);
    case _ =>
  }

  /** What the run from `s` has made of the sign-in so far. */
  ghost predicate Headed(s: System, steps: seq<Step>, task: int, row: User)
    requires RunFrom(s, steps).Some? && task in s.tasks
  {
    var m, t, next := RunFrom(s, steps).value, s.tasks[task], TableAtNext(s, steps, task);
    && task in m.tasks && FindExternal(m.users, t.subject) == Some(row)
    && m.tasks[task] == t.(pc := m.tasks[task].pc)
    && (next.None? ==> m.tasks[task].pc == t.pc)
    && (next.Some? ==>
          && !m.tasks[task].pc.Start? && !m.tasks[task].pc.ByEmail? && RefusedForAddress(m.tasks[task].pc)
          && (Succeeds(m.tasks[task], row, []) <==> Succeeds(t, row, next.value))
          && Grows(s.users, next.value))
  }

  lemma {:induction false} RunHeads(s: System, steps: seq<Step>, task: int, row: User)
    requires Inv(s) && Overtaken(s, task) && RunFrom(s, steps).Some?
    requires FindExternal(s.users, s.tasks[task].subject) == Some(row)
    ensures Headed(s, steps, task, row)
  {
    if steps != [] {
      var front, step := steps[..|steps| - 1], steps[|steps| - 1];
      var m := RunFrom(s, front).value;
      RunHeads(s, front, task, row);
      RunKeeps(s, front);
      StepKeeps(m, step);
      OwnRowStays(m.users, Next(m, step).users, s.tasks[task].subject);
      if step == Advance(task) {
        assert TaskRight(m.users, m.tasks[task]);
        AdvanceDecides(m.users, m.tasks[task], row);
      }
    }
  }

  /** From any point after its first lookup, and whatever runs next to it, an
      overtaken sign-in that ends is given its subject's row exactly when:
      it has yet to look its address up and will find no row there (and the
      address is not blank); it is about to link, or failed to link, that very row; it
      is about to create with an address that is not blank; or it is reading
      back. Otherwise it is refused for an owned or a blank address. */
  lemma OvertakenSignIn(before: seq<Step>, after: seq<Step>, task: int)
    requires RunFrom(INITIAL, before).Some? && RunFrom(RunFrom(INITIAL, before).value, after).Some?
    requires Overtaken(RunFrom(INITIAL, before).value, task)
    requires var end := RunFrom(RunFrom(INITIAL, before).value, after).value;
             task in end.tasks && end.tasks[task].pc.Ended?
    ensures var s := RunFrom(INITIAL, before).value;
            var t := s.tasks[task];
            var row := FindExternal(s.users, t.subject).value;
            var outcome := RunFrom(s, after).value.tasks[task].pc.outcome;
            var lookup := TableAtNext(s, after, task);
            && lookup.Some?
            && (outcome.Resolved? <==> Succeeds(t, row, lookup.value))
            && (outcome.Resolved? ==> outcome.user == row)
            && (outcome.Rejected? ==> outcome.reason in {EmailOwned, BadEmail})
            && (t.pc.ByEmail? && !AddressFree(s.users, t) ==> outcome.Rejected?)
  {
    var s := RunFrom(INITIAL, before).value;
    var row := FindExternal(s.users, s.tasks[task].subject).value;
    RunKeeps(INITIAL, before);
    RunKeeps(s, after);
    RunHeads(s, after, task, row);
    var end := RunFrom(s, after).value;
    var outcome := end.tasks[task].pc.outcome;
    assert TaskRight(end.users, end.tasks[task]);
    var t, table := s.tasks[task], TableAtNext(s, after, task).value;
    if t.pc.ByEmail? && !AddressFree(s.users, t) {
      assert TaskRight(s.users, t);
      AddressStaysTaken(s.users, table, t.email.value);
    }
    if outcome.Resolved? {
      OnlyOwner(end.users, outcome.user, s.tasks[task].subject);
    }
  }

  // ---- Exactly when an adoption succeeds ----

  /** The row will never be the subject's: it is someone else's, or the subject
      has another. */
  predicate Barred(users: seq<User>, id: nat, subject: string) {
    && id < |users| && users[id].externalId != Some(subject)
    && (users[id].externalId.Some? || FindExternal(users, subject).Some?)
  }

  lemma BarredStays(a: seq<User>, b: seq<User>, id: nat, subject: string)
    requires UsersRight(a) && UsersRight(b) && Grows(a, b) && Barred(a, id, subject)
    ensures Barred(b, id, subject)
  {
    if FindExternal(a, subject).Some? {
      OwnRowStays(a, b, subject);
      OwnsOnly(a, FindExternal(a, subject).value, id, subject);
      OwnsOnly(b, FindExternal(b, subject).value, id, subject);
    }
  }

  predicate Adopting(users: seq<User>, t: Task, id: nat) {
    t.admin && id < |users| &&
    match t.pc
    case Linking(i) => i == id
    case Linked(i) => i == id && Owns(users, id, t.subject)
    case LinkLost(i) => i == id && (Owns(users, id, t.subject) || Barred(users, id, t.subject))
    case Ended(Resolved(u)) => u.id == id && Owns(users, id, t.subject)
    case Ended(Rejected(reason)) => reason == Conflict && Barred(users, id, t.subject)
    case _ => false
  }

  lemma AdvanceAdopts(users: seq<User>, t: Task, id: nat)
    requires UsersRight(users) && Adopting(users, t, id) && !t.pc.Ended?
    ensures Adopting(NextUsers(users, t), t.(pc := NextPc(users, t)), id)
  {
  }

  lemma AdoptingStays(a: seq<User>, b: seq<User>, t: Task, id: nat)
    requires UsersRight(a) && UsersRight(b) && Grows(a, b) && Adopting(a, t, id)
    ensures Adopting(b, t, id)
  {
    if Barred(a, id, t.subject) {
      BarredStays(a, b, id, t.subject);
    }
  }

  lemma {:induction false} RunAdopts(s: System, steps: seq<Step>, task: int, id: nat)
    requires Inv(s) && RunFrom(s, steps).Some? && task in s.tasks && Adopting(s.users, s.tasks[task], id)
    ensures var m := RunFrom(s, steps).value;
            && task in m.tasks && m.tasks[task].subject == s.tasks[task].subject && Adopting(m.users, m.tasks[task], id)
  {
    if steps != [] {
      var front, step := steps[..|steps| - 1], steps[|steps| - 1];
      var m := RunFrom(s, front).value;
      RunAdopts(s, front, task, id);
      RunKeeps(s, front);
      StepKeeps(m, step);
      if step == Advance(task) {
        AdvanceAdopts(m.users, m.tasks[task], id);
      } else {
        AdoptingStays(m.users, Next(m, step).users, m.tasks[task], id);
      }
    }
  }

  /** An adoption that ends, whatever ran next to it, hands back its row exactly
      when that row is the subject's by then; else it reports a conflict, and
      the row never will be. */
  lemma AdoptionDecides(before: seq<Step>, after: seq<Step>, task: int, id: nat)
    requires RunFrom(INITIAL, before).Some? && RunFrom(RunFrom(INITIAL, before).value, after).Some?
    requires var s := RunFrom(INITIAL, before).value;
             task in s.tasks && s.tasks[task].admin && s.tasks[task].pc == Linking(id)
    requires var end := RunFrom(RunFrom(INITIAL, before).value, after).value;
             task in end.tasks && end.tasks[task].pc.Ended?
    ensures var end := RunFrom(RunFrom(INITIAL, before).value, after).value;
            var t := end.tasks[task];
            && id < |end.users|
            && (t.pc.outcome.Resolved? <==> end.users[id].externalId == Some(t.subject))
            && (t.pc.outcome.Resolved? ==> t.pc.outcome.user == end.users[id])
            && (t.pc.outcome.Rejected? ==> t.pc.outcome.reason == Conflict && Barred(end.users, id, t.subject))
  {
    var s := RunFrom(INITIAL, before).value;
    RunKeeps(INITIAL, before);
    assert TaskRight(s.users, s.tasks[task]);
    RunAdopts(s, after, task, id);
    RunKeeps(s, after);
    assert TaskRight(RunFrom(s, after).value.users, RunFrom(s, after).value.tasks[task]);
  }
}
