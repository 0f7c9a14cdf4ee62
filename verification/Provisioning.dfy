/** Provisioning as concurrent multi-step requests over two stores without a transaction. */
module Provisioning {
  import opened Wrappers
  import opened Accounts
  import opened Crypto

  /** A request between two of its store operations. */
  datatype Op =
    | Creating(req: CreateRequest, nonce: Nonce)    // before CreatePassword
    | Replacing(req: CreateRequest, nonce: Nonce)   // the password exists; before DeletePassword
    | Recreating(req: CreateRequest, nonce: Nonce)  // deleted; before the second CreatePassword
    | Storing(req: CreateRequest, nonce: Nonce)     // before Encrypt and INSERT
    | Booting(username: string, password: string, hashable: bool)
    | BootStoring(username: string)

  datatype Reply = Created(username: string) | Failed(username: string, status: int) | Booted(username: string)

  datatype State = State(passwords: Passwords, rows: Rows, ops: map<nat, Op>, replies: seq<Reply>)

  datatype Action =
    | Create(id: nat, req: CreateRequest, nonce: Nonce, accepted: bool)
    | Bootstrap(id: nat, username: string, password: string, hashable: bool)
    | Delete(username: string)
    | Advance(id: nat)
    | Fault(id: nat, applied: bool, misread: bool)

  function Fail(s: State, id: nat, username: string, status: int): State {
    s.(ops := s.ops - {id}, replies := s.replies + [Failed(username, status)])
  }

  /** The next store operation of a request, when its RPC works. */
  function AdvanceOp(w: World, s: State, id: nat): State
    requires id in s.ops
  {
    match s.ops[id]
    case Creating(r, nonce) =>
      if !r.hashable then Fail(s, id, r.username, 500)
      else if r.username in s.passwords then s.(ops := s.ops[id := Replacing(r, nonce)])
      else s.(passwords := s.passwords[r.username := r.password], ops := s.ops[id := Storing(r, nonce)])
    case Replacing(r, nonce) =>
      if r.username !in s.passwords then Fail(s, id, r.username, 500)
      else s.(passwords := s.passwords - {r.username}, ops := s.ops[id := Recreating(r, nonce)])
    case Recreating(r, nonce) =>
      if r.username in s.passwords then Fail(s, id, r.username, 500)
      else s.(passwords := s.passwords[r.username := r.password], ops := s.ops[id := Storing(r, nonce)])
    case Storing(r, nonce) =>
      var encrypted := Encrypt(w.aead, r.apiKey, w.key, nonce);
      if encrypted.None? || r.username in s.rows then Fail(s, id, r.username, 500)
      else s.(rows := s.rows[r.username := RowFor(r, encrypted.value)], ops := s.ops - {id},
              replies := s.replies + [Created(r.username)])
    case Booting(username, password, hashable) =>
      if !hashable || username in s.passwords then Fail(s, id, username, 500)
      else s.(passwords := s.passwords[username := password], ops := s.ops[id := BootStoring(username)])
    case BootStoring(username) =>
      if username in s.rows then Fail(s, id, username, 500)
      else s.(rows := s.rows[username := AdminRow(username)], ops := s.ops - {id},
              replies := s.replies + [Booted(username)])
  }

  /** What the next operation of a request does to the stores even when its answer is lost. */
  function Effect(w: World, s: State, id: nat): State
    requires id in s.ops
  {
    var t := AdvanceOp(w, s, id);
    s.(passwords := t.passwords, rows := t.rows)
  }

  function UserOf(op: Op): string {
    if op.Booting? || op.BootStoring? then op.username else op.req.username
  }

  /** The RPC of the next operation fails, before or after its effect, and the request ends; but CreateUser goes on as
      if the password existed when the error of its first RPC is misread, because its text says "already exists". */
  function FaultOp(w: World, s: State, id: nat, applied: bool, misread: bool): State
    requires id in s.ops
  {
    var t := if applied then Effect(w, s, id) else s;
    if misread && s.ops[id].Creating? && s.ops[id].req.hashable then
      t.(ops := s.ops[id := Replacing(s.ops[id].req, s.ops[id].nonce)])
    else Fail(t, id, UserOf(s.ops[id]), 500)
  }

  /** One step; an action that is not possible leaves the state as it is. */
  function Next(w: World, s: State, a: Action): State {
    match a
    case Create(id, r, nonce, accepted) =>
      if id in s.ops then s
      else if !Complete(r) then Fail(s, id, r.username, 400)
      else if !accepted then Fail(s, id, r.username, 401)
      else s.(ops := s.ops[id := Creating(r, nonce)])
    case Bootstrap(id, username, password, hashable) =>
      if id in s.ops || s.rows != map[] then s else s.(ops := s.ops[id := Booting(username, password, hashable)])
    case Delete(username) => s.(rows := s.rows - {username})
    case Advance(id) => if id in s.ops then AdvanceOp(w, s, id) else s
    case Fault(id, applied, misread) => if id in s.ops then FaultOp(w, s, id, applied, misread) else s
  }

  function Run(w: World, s: State, actions: seq<Action>): State
    decreases |actions|
  {
    if actions == [] then s else Next(w, Run(w, s, actions[..|actions| - 1]), actions[|actions| - 1])
  }

  const EMPTY := State(map[], map[], map[], [])

  // Every mapping row is backed by a password, or by a recreation under way.

  ghost predicate RecreatedBy(s: State, username: string, id: nat) {
    id in s.ops && s.ops[id].Recreating? && s.ops[id].req.username == username
  }

  ghost predicate Backed(s: State, username: string) {
    username in s.passwords || exists id :: RecreatedBy(s, username, id)
  }

  ghost predicate OpOk(s: State, op: Op) {
    match op
    case Storing(r, _) => Backed(s, r.username)
    case BootStoring(username) => Backed(s, username)
    case _ => true
  }

  ghost predicate Inv(s: State) {
    && (forall username | username in s.rows :: Backed(s, username))
    && (forall id | id in s.ops :: OpOk(s, s.ops[id]))
  }

  /** A fault that hits the only thing that backs a user: a delete that took effect, or a recreation that did not. */
  ghost predicate Unbacks(s: State, a: Action, username: string) {
    && a.Fault? && a.id in s.ops && UserOf(s.ops[a.id]) == username
    && (forall other | other != a.id :: !RecreatedBy(s, username, other))
    && match s.ops[a.id]
       case Replacing(_, _) => a.applied && username in s.passwords
       case Recreating(_, _) => !a.applied && username !in s.passwords
       case _ => false
  }

  lemma AdvanceKeepsBacked(w: World, s: State, id: nat, username: string)
    requires id in s.ops && Backed(s, username)
    ensures Backed(AdvanceOp(w, s, id), username)
  {
    var t := AdvanceOp(w, s, id);
    if username !in t.passwords {
      if username in s.passwords {
        assert RecreatedBy(t, username, id);
      } else {
        var other :| RecreatedBy(s, username, other);
        assert other != id;
        assert RecreatedBy(t, username, other);
      }
    }
  }

  /** What a fault leaves in the stores and in flight. */
  lemma FaultLeaves(w: World, s: State, a: Action, username: string)
    requires a.Fault? && a.id in s.ops
    ensures var t := Next(w, s, a); var op := s.ops[a.id];
      && (forall id :: RecreatedBy(t, username, id) <==> id != a.id && RecreatedBy(s, username, id))
      && (UserOf(op) != username || !a.applied ==> (username in t.passwords <==> username in s.passwords))
      && (username in s.passwords && username !in t.passwords ==> op.Replacing?)
      && (op.Replacing? && a.applied && UserOf(op) == username ==> username !in t.passwords)
      && (op.Recreating? && a.applied && UserOf(op) == username ==> username in t.passwords)
  {
  }

  /** A fault takes away what backs a user exactly when it hits the only thing that does. */
  lemma UnbacksIff(w: World, s: State, a: Action, username: string)
    requires a.Fault? && Backed(s, username)
    ensures !Backed(Next(w, s, a), username) <==> Unbacks(s, a, username)
  {
    if a.id in s.ops {
      var t := Next(w, s, a);
      FaultLeaves(w, s, a, username);
    }
  }

  /** Whoever is backed stays backed, unless a fault hits the only thing that backs him. */
  lemma BackedStays(w: World, s: State, a: Action, username: string)
    requires Backed(s, username)
    ensures Backed(Next(w, s, a), username) <==> !Unbacks(s, a, username)
  {
    if a.Fault? {
      UnbacksIff(w, s, a, username);
    } else if a.Advance? && a.id in s.ops {
      AdvanceKeepsBacked(w, s, a.id, username);
    } else if username !in s.passwords {
      var id :| RecreatedBy(s, username, id);
      assert RecreatedBy(Next(w, s, a), username, id);
    }
  }

  lemma NewRowIsBacked(w: World, s: State, a: Action, username: string)
    requires Inv(s) && username in Next(w, s, a).rows
    ensures Backed(s, username)
  {
    if username !in s.rows {
      assert OpOk(s, s.ops[a.id]);
    }
  }

  lemma AdvancedOpOk(w: World, s: State, id: nat)
    requires id in s.ops && OpOk(s, s.ops[id]) && id in AdvanceOp(w, s, id).ops
    ensures OpOk(AdvanceOp(w, s, id), AdvanceOp(w, s, id).ops[id])
  {
  }

  lemma OtherOpsStay(w: World, s: State, a: Action, id: nat)
    requires id in Next(w, s, a).ops && a != Advance(id) && !(a.Fault? && a.id == id)
    ensures id in s.ops ==> Next(w, s, a).ops[id] == s.ops[id]
    ensures id !in s.ops ==> OpOk(Next(w, s, a), Next(w, s, a).ops[id])
  {
  }

  lemma OpStaysOk(w: World, s: State, a: Action, id: nat)
    requires Inv(s) && id in Next(w, s, a).ops && forall username :: !Unbacks(s, a, username)
    ensures OpOk(Next(w, s, a), Next(w, s, a).ops[id])
  {
    if a == Advance(id) {
      AdvancedOpOk(w, s, id);
    } else if a.Fault? && a.id == id {
      assert Next(w, s, a).ops[id].Replacing? || id !in s.ops;
    } else {
      OtherOpsStay(w, s, a, id);
      if id in s.ops && s.ops[id].Storing? {
        BackedStays(w, s, a, s.ops[id].req.username);
      } else if id in s.ops && s.ops[id].BootStoring? {
        BackedStays(w, s, a, s.ops[id].username);
      }
    }
  }

  lemma StepKeepsInv(w: World, s: State, a: Action)
    requires Inv(s) && forall username :: !Unbacks(s, a, username)
    ensures Inv(Next(w, s, a))
  {
    forall username | username in Next(w, s, a).rows
      ensures Backed(Next(w, s, a), username)
    {
      NewRowIsBacked(w, s, a, username);
      BackedStays(w, s, a, username);
    }
    forall id | id in Next(w, s, a).ops
      ensures OpOk(Next(w, s, a), Next(w, s, a).ops[id])
    {
      OpStaysOk(w, s, a, id);
    }
  }

  /** No fault of the run hits the only thing that backs a user; a run without faults is one of these. */
  ghost predicate Orderly(w: World, actions: seq<Action>) {
    actions == [] ||
      var init, a := actions[..|actions| - 1], actions[|actions| - 1];
      Orderly(w, init) && forall username :: !Unbacks(Run(w, EMPTY, init), a, username)
  }

  lemma {:induction false} InvHolds(w: World, actions: seq<Action>)
    requires Orderly(w, actions)
    ensures Inv(Run(w, EMPTY, actions))
  {
    if actions != [] {
      InvHolds(w, actions[..|actions| - 1]);
      StepKeepsInv(w, Run(w, EMPTY, actions[..|actions| - 1]), actions[|actions| - 1]);
    }
  }

  lemma {:induction false} FaultlessIsOrderly(w: World, actions: seq<Action>)
    requires forall a | a in actions :: !a.Fault?
    ensures Orderly(w, actions)
  {
    if actions != [] {
      FaultlessIsOrderly(w, actions[..|actions| - 1]);
      assert actions[|actions| - 1] in actions;
    }
  }

  /** In every run each mapping row's user has a password, or some request is between its delete and its recreate
      for that user; so whenever nothing is in flight the rows are a subset of the passwords. */
  lemma RowsAreBacked(w: World, actions: seq<Action>, username: string)
    requires Orderly(w, actions) && username in Run(w, EMPTY, actions).rows
    ensures Backed(Run(w, EMPTY, actions), username)
    ensures Run(w, EMPTY, actions).ops == map[] ==> username in Run(w, EMPTY, actions).passwords
  {
    InvHolds(w, actions);
  }

  lemma RunStep(w: World, s: State, actions: seq<Action>, a: Action)
    ensures Run(w, s, actions + [a]) == Next(w, Run(w, s, actions), a)
  {
    assert (actions + [a])[..|actions + [a]| - 1] == actions;
  }

  function Creation(id: nat, r: CreateRequest, nonce: Nonce): seq<Action> {
    [Create(id, r, nonce, true), Advance(id), Advance(id)]
  }

  /** The steps of a creation, one by one. */
  lemma CreationSteps(
      w: World, before: seq<Action>, id: nat, r: CreateRequest, nonce: Nonce, s: State, t: State, u: State)
    requires Next(w, Run(w, EMPTY, before), Create(id, r, nonce, true)) == s
    requires Next(w, s, Advance(id)) == t && Next(w, t, Advance(id)) == u
    ensures Run(w, EMPTY, before + Creation(id, r, nonce)) == u
  {
    var first := before + [Create(id, r, nonce, true)];
    RunStep(w, EMPTY, before, Create(id, r, nonce, true));
    RunStep(w, EMPTY, first, Advance(id));
    RunStep(w, EMPTY, first + [Advance(id)], Advance(id));
    assert before + Creation(id, r, nonce) == first + [Advance(id)] + [Advance(id)];
  }

  /** The stores after a user was created, with the second creation at most under way. */
  function OneUser(w: World, r: CreateRequest, nonce: Nonce, ops: map<nat, Op>, created: bool): State
    requires ValidKey(w.key)
  {
    State(map[r.username := r.password],
          if created then map[r.username := RowFor(r, Encrypt(w.aead, r.apiKey, w.key, nonce).value)] else map[],
          ops, if created then [Created(r.username)] else [])
  }

  lemma CreatedOnce(w: World, r: CreateRequest, nonce: Nonce)
    requires Complete(r) && r.hashable && ValidKey(w.key)
    ensures Run(w, EMPTY, Creation(0, r, nonce)) == OneUser(w, r, nonce, map[], true)
  {
    var s := EMPTY.(ops := map[0 := Creating(r, nonce)]);
    var t := OneUser(w, r, nonce, map[0 := Storing(r, nonce)], false);
    assert Next(w, t, Advance(0)) == OneUser(w, r, nonce, map[], true);
    CreationSteps(w, [], 0, r, nonce, s, t, OneUser(w, r, nonce, map[], true));
    assert [] + Creation(0, r, nonce) == Creation(0, r, nonce);
  }

  lemma HalfRecreated(w: World, r: CreateRequest, nonce: Nonce)
    requires Complete(r) && r.hashable && ValidKey(w.key)
    ensures Run(w, EMPTY, Creation(0, r, nonce) + Creation(1, r, nonce))
         == OneUser(w, r, nonce, map[1 := Recreating(r, nonce)], true).(passwords := map[])
  {
    CreatedOnce(w, r, nonce);
    var s := OneUser(w, r, nonce, map[1 := Creating(r, nonce)], true);
    var t := OneUser(w, r, nonce, map[1 := Replacing(r, nonce)], true);
    var u := OneUser(w, r, nonce, map[1 := Recreating(r, nonce)], true).(passwords := map[]);
    assert Next(w, t, Advance(1)) == u;
    CreationSteps(w, Creation(0, r, nonce), 1, r, nonce, s, t, u);
  }

  /** The code has no compensation: a user is created, created again until the old password is deleted, and then the
      RPC fails. The run ends with a row, without a password, and with nothing in flight. */
  lemma FailedRecreateOrphansRow(w: World, r: CreateRequest, nonce: Nonce)
    requires Complete(r) && r.hashable && ValidKey(w.key)
    ensures var actions := Creation(0, r, nonce) + Creation(1, r, nonce);
      var s := Run(w, EMPTY, actions + [Fault(1, false, false)]);
      && Unbacks(Run(w, EMPTY, actions), Fault(1, false, false), r.username)
      && r.username in s.rows && r.username !in s.passwords && s.ops == map[]
      && s.replies == [Created(r.username), Failed(r.username, 500)]
  {
    HalfRecreated(w, r, nonce);
    RunStep(w, EMPTY, Creation(0, r, nonce) + Creation(1, r, nonce), Fault(1, false, false));
  }

  // Where the stored passwords come from.

  /** Some request of the run asked for this password of this user. */
  ghost predicate Submitted(actions: seq<Action>, username: string, password: string) {
    exists a | a in actions :: Submits(a, username, password)
  }

  predicate Submits(a: Action, username: string, password: string) {
    || (a.Create? && a.accepted && a.req.username == username && a.req.password == password)
    || (a.Bootstrap? && a.username == username && a.password == password)
  }

  /** The request still carries the password that it was sent with. */
  ghost predicate OpSubmitted(actions: seq<Action>, op: Op) {
    match op
    case Booting(username, password, _) => Submitted(actions, username, password)
    case BootStoring(_) => true
    case other => Submitted(actions, other.req.username, other.req.password)
  }

  lemma SubmittedStays(actions: seq<Action>, a: Action, username: string, password: string)
    requires Submitted(actions, username, password)
    ensures Submitted(actions + [a], username, password)
  {
    var b :| b in actions && Submits(b, username, password);
    assert b in actions + [a];
  }

  lemma OpComesFrom(w: World, s: State, a: Action, id: nat)
    requires id in Next(w, s, a).ops
    ensures var op := Next(w, s, a).ops[id];
      || (id in s.ops && op == s.ops[id])
      || (op.Creating? && Submits(a, op.req.username, op.req.password))
      || (op.Booting? && Submits(a, op.username, op.password))
      || op.BootStoring?
      || (id in s.ops && !op.Booting? && !s.ops[id].Booting? && !s.ops[id].BootStoring? && op.req == s.ops[id].req)
  {
  }

  predicate Carries(op: Op, username: string, password: string) {
    match op
    case Booting(u, p, _) => u == username && p == password
    case BootStoring(_) => false
    case other => other.req.username == username && other.req.password == password
  }

  lemma PasswordComesFrom(w: World, s: State, a: Action, username: string)
    requires username in Next(w, s, a).passwords
    ensures var password := Next(w, s, a).passwords[username];
      || (username in s.passwords && password == s.passwords[username])
      || ((a.Advance? || a.Fault?) && a.id in s.ops && Carries(s.ops[a.id], username, password))
  {
  }

  ghost predicate AllSubmitted(actions: seq<Action>, s: State) {
    && (forall u | u in s.passwords :: Submitted(actions, u, s.passwords[u]))
    && (forall id | id in s.ops :: OpSubmitted(actions, s.ops[id]))
  }

  lemma OpStaysSubmitted(actions: seq<Action>, a: Action, op: Op)
    requires OpSubmitted(actions, op)
    ensures OpSubmitted(actions + [a], op)
  {
    if op.Booting? {
      SubmittedStays(actions, a, op.username, op.password);
    } else if !op.BootStoring? {
      SubmittedStays(actions, a, op.req.username, op.req.password);
    }
  }

  lemma PasswordStep(w: World, init: seq<Action>, s: State, a: Action, username: string)
    requires AllSubmitted(init, s) && username in Next(w, s, a).passwords
    ensures Submitted(init + [a], username, Next(w, s, a).passwords[username])
  {
    PasswordComesFrom(w, s, a, username);
    if (a.Advance? || a.Fault?) && a.id in s.ops {
      assert OpSubmitted(init, s.ops[a.id]);
    }
    SubmittedStays(init, a, username, Next(w, s, a).passwords[username]);
  }

  lemma OpStep(w: World, init: seq<Action>, s: State, a: Action, id: nat)
    requires AllSubmitted(init, s) && id in Next(w, s, a).ops
    ensures OpSubmitted(init + [a], Next(w, s, a).ops[id])
  {
    assert a in init + [a];
    OpComesFrom(w, s, a, id);
    if id in s.ops {
      assert OpSubmitted(init, s.ops[id]);
      OpStaysSubmitted(init, a, s.ops[id]);
    }
  }

  lemma {:induction false} AllSubmittedHolds(w: World, actions: seq<Action>)
    ensures AllSubmitted(actions, Run(w, EMPTY, actions))
  {
    if actions != [] {
      var init, a := actions[..|actions| - 1], actions[|actions| - 1];
      var s := Run(w, EMPTY, init);
      AllSubmittedHolds(w, init);
      assert actions == init + [a];
      forall u | u in Next(w, s, a).passwords
        ensures Submitted(actions, u, Next(w, s, a).passwords[u])
      {
        PasswordStep(w, init, s, a, u);
      }
      forall id | id in Next(w, s, a).ops
        ensures OpSubmitted(actions, Next(w, s, a).ops[id])
      {
        OpStep(w, init, s, a, id);
      }
    }
  }

  /** In every run, faults included, each Dex password is one that some request of the run gave for that very user. */
  lemma PasswordsWereSubmitted(w: World, actions: seq<Action>, username: string)
    requires username in Run(w, EMPTY, actions).passwords
    ensures exists a | a in actions :: var password := Run(w, EMPTY, actions).passwords[username];
      || (a.Create? && a.accepted && a.req.username == username && a.req.password == password)
      || (a.Bootstrap? && a.username == username && a.password == password)
  {
    AllSubmittedHolds(w, actions);
    var a :| a in actions && Submits(a, username, Run(w, EMPTY, actions).passwords[username]);
  }

  // The stored credentials come back, until the user is deleted.

  predicate CompleteOp(op: Op) {
    op.Booting? || op.BootStoring? || Complete(op.req)
  }

  lemma OpStaysComplete(w: World, s: State, a: Action, id: nat)
    requires id in Next(w, s, a).ops && (id in s.ops ==> CompleteOp(s.ops[id]))
    ensures CompleteOp(Next(w, s, a).ops[id])
  {
  }

  /** Only complete requests are ever under way. */
  lemma {:induction false} OpsComplete(w: World, actions: seq<Action>, id: nat)
    requires id in Run(w, EMPTY, actions).ops
    ensures CompleteOp(Run(w, EMPTY, actions).ops[id])
  {
    var init := actions[..|actions| - 1];
    if id in Run(w, EMPTY, init).ops {
      OpsComplete(w, init, id);
    }
    OpStaysComplete(w, Run(w, EMPTY, init), actions[|actions| - 1], id);
  }

  lemma RowStays(w: World, s: State, a: Action, username: string)
    requires username in s.rows && a != Delete(username)
    ensures username in Next(w, s, a).rows && Next(w, s, a).rows[username] == s.rows[username]
  {
  }

  lemma {:induction false} RowsOnlyDeleted(w: World, s: State, later: seq<Action>, username: string)
    requires username in s.rows && Delete(username) !in later
    ensures username in Run(w, s, later).rows && Run(w, s, later).rows[username] == s.rows[username]
    decreases |later|
  {
    if later != [] {
      var init, a := later[..|later| - 1], later[|later| - 1];
      RowsOnlyDeleted(w, s, init, username);
      assert a in later;
      RowStays(w, Run(w, s, init), a, username);
    }
  }

  /** After a 201, and until a delete of that user, every verified token with that email, whatever its subject, and every
      one without an email and with that subject, yields exactly the submitted URL, database and API key, and the user's
      own server, whatever else happens. */
  lemma CredentialsRoundTrip(
      w: World, before: seq<Action>, id: nat, later: seq<Action>,
      header: string, token: string, email: string, subject: string)
    requires Lawful(w.aead)
    requires var s := Run(w, EMPTY, before);
      && id in s.ops && s.ops[id].Storing?
      && Next(w, s, Advance(id)).replies == s.replies + [Created(s.ops[id].req.username)]
      && Delete(s.ops[id].req.username) !in later
      && s.ops[id].req.username == (if email != "" then email else subject)
    requires header == "Bearer " + token || header == "bearer " + token
    requires w.verify(token) == Some(Claims(email, subject))
    ensures var s := Run(w, EMPTY, before); var r := s.ops[id].req;
      var rows := Run(w, Next(w, s, Advance(id)), later).rows;
      && Login(w, Table(rows), header) == Proceed(Context(Some(r.apiKey), Some(r.odooURL), Some(r.odooDB)))
      && ChooseServer(Login(w, Table(rows), header).context) == PerUser(r.odooURL, r.odooDB, r.apiKey)
  {
    var s := Run(w, EMPTY, before);
    var r, nonce, t := s.ops[id].req, s.ops[id].nonce, Next(w, s, Advance(id));
    OpsComplete(w, before, id);
    assert t.replies[|s.replies|] == Created(r.username);
    DecryptUndoesEncrypt(w.aead, r.apiKey, w.key, nonce);
    RowsOnlyDeleted(w, t, later, r.username);
    LoginByToken(w, Run(w, t, later).rows, header, token, email, subject);
  }

  /** The step inserts a row for the user, whether or not its answer arrives. */
  predicate Inserts(w: World, s: State, a: Action, username: string) {
    && (a.Advance? || (a.Fault? && a.applied))
    && a.id in s.ops && UserOf(s.ops[a.id]) == username && username !in s.rows
    && (s.ops[a.id].BootStoring? || (s.ops[a.id].Storing? && ValidKey(w.key)))
  }

  lemma RowAfterStep(w: World, s: State, a: Action, username: string)
    ensures username in Next(w, s, a).rows
      <==> Inserts(w, s, a, username) || (username in s.rows && a != Delete(username))
  {
  }

  /** Some step of `later` inserted a row for the user, and none after it deleted the row. */
  ghost predicate InsertedAndKept(w: World, s: State, later: seq<Action>, username: string) {
    exists n :: 0 <= n < |later| && InsertedAt(w, s, later, n, username)
  }

  ghost predicate InsertedAt(w: World, s: State, later: seq<Action>, n: nat, username: string)
    requires n < |later|
  {
    Inserts(w, Run(w, s, later[..n]), later[n], username) && Delete(username) !in later[n + 1..]
  }

  lemma OneMoreKept(w: World, s: State, init: seq<Action>, a: Action, username: string)
    ensures InsertedAndKept(w, s, init + [a], username)
      <==> Inserts(w, Run(w, s, init), a, username)
           || (InsertedAndKept(w, s, init, username) && a != Delete(username))
  {
    var later := init + [a];
    assert later[..|init|] == init && later[|init| + 1..] == [];
    assert InsertedAt(w, s, later, |init|, username) <==> Inserts(w, Run(w, s, init), a, username);
    forall n | 0 <= n < |init|
      ensures InsertedAt(w, s, later, n, username) <==> InsertedAt(w, s, init, n, username) && a != Delete(username)
    {
      assert later[..n] == init[..n] && later[n + 1..] == init[n + 1..] + [a];
    }
  }

  /** In every run, whatever fails: a user without a row has one later exactly when it was inserted and not deleted. */
  lemma {:induction false} RowIffInserted(w: World, s: State, later: seq<Action>, username: string)
    requires username !in s.rows
    ensures username in Run(w, s, later).rows <==> InsertedAndKept(w, s, later, username)
    decreases |later|
  {
    if later != [] {
      var init, a := later[..|later| - 1], later[|later| - 1];
      assert later == init + [a];
      RowIffInserted(w, s, init, username);
      RowAfterStep(w, Run(w, s, init), a, username);
      OneMoreKept(w, s, init, a, username);
    }
  }

  /** After a delete the user is refused, until a row is inserted anew and from its next delete on. */
  lemma RefusedAfterDelete(
      w: World, s: State, later: seq<Action>, username: string,
      header: string, token: string, email: string, subject: string)
    requires header == "Bearer " + token || header == "bearer " + token
    requires w.verify(token) == Some(Claims(email, subject)) && username == if email != "" then email else subject
    ensures var t := Next(w, s, Delete(username));
      Login(w, Table(Run(w, t, later).rows), header) == Unauthorized <==> !InsertedAndKept(w, t, later, username)
  {
    var t := Next(w, s, Delete(username));
    RowIffInserted(w, t, later, username);
    LoginByToken(w, Run(w, t, later).rows, header, token, email, subject);
  }

  // Where no answer is lost, the answers tell.

  /** Answers that say a row was inserted for the user. */
  predicate Inserted(replies: seq<Reply>, username: string) {
    Created(username) in replies || Booted(username) in replies
  }

  /** No fault loses the answer of an operation that took effect. */
  predicate NothingLost(actions: seq<Action>) {
    forall a | a in actions && a.Fault? :: !a.applied
  }

  /** A step answers at most one request, and inserts a row only with the answer that says so. */
  lemma InsertIsAnswered(w: World, s: State, a: Action, username: string)
    requires a.Fault? ==> !a.applied
    ensures var t := Next(w, s, a);
      && (t.replies == s.replies || (|t.replies| == |s.replies| + 1 && t.replies[..|s.replies|] == s.replies))
      && (username in t.rows && username !in s.rows ==>
            |t.replies| == |s.replies| + 1
            && (t.replies[|s.replies|] == Created(username) || t.replies[|s.replies|] == Booted(username)))
  {
  }

  lemma AnsweredStep(w: World, s: State, a: Action, username: string, base: nat)
    requires base <= |s.replies| && (a.Fault? ==> !a.applied)
    requires username in s.rows ==> Inserted(s.replies[base..], username)
    ensures var t := Next(w, s, a);
      base <= |t.replies| && (username in t.rows ==> Inserted(t.replies[base..], username))
  {
    InsertIsAnswered(w, s, a, username);
    var t := Next(w, s, a);
    assert t.replies[base..][..|s.replies| - base] == s.replies[base..];
    assert |t.replies| > |s.replies| ==> t.replies[base..][|s.replies| - base] == t.replies[|s.replies|];
  }

  lemma {:induction false} NoInsertNoRow(w: World, s: State, later: seq<Action>, username: string)
    requires username !in s.rows && NothingLost(later)
    ensures |s.replies| <= |Run(w, s, later).replies|
    ensures username in Run(w, s, later).rows ==> Inserted(Run(w, s, later).replies[|s.replies|..], username)
    decreases |later|
  {
    if later != [] {
      var init, a := later[..|later| - 1], later[|later| - 1];
      assert a in later && forall b | b in init :: b in later;
      NoInsertNoRow(w, s, init, username);
      AnsweredStep(w, Run(w, s, init), a, username, |s.replies|);
    }
  }

  lemma RefusedUntilAnswered(w: World, s: State, later: seq<Action>, username: string, header: string)
    requires Presents(w, header, username) && NothingLost(later)
    requires var t := Next(w, s, Delete(username));
      |t.replies| <= |Run(w, t, later).replies| && !Inserted(Run(w, t, later).replies[|t.replies|..], username)
    ensures Login(w, Table(Run(w, Next(w, s, Delete(username)), later).rows), header) == Unauthorized
  {
    NoInsertNoRow(w, Next(w, s, Delete(username)), later, username);
  }
}
