/** The admin API and the bootstrap over the two stores, one request at a time. */
module AdminHandler {
  import opened Wrappers
  import opened Accounts
  import opened Crypto
  import opened Provisioning

  /** How one call of a store goes; a broken one may still have taken effect, and the text of its error may say
      "already exists". */
  datatype Rpc = Works | Breaks(applied: bool, misread: bool)

  datatype Outcome = Done | AlreadyExists | NotFound | Broken

  class DexClient {
    var passwords: Passwords

    constructor ()
      ensures passwords == map[]
    {
      passwords := map[];
    }

    method CreatePassword(email: string, password: string, hashable: bool, rpc: Rpc) returns (r: Outcome)
      modifies this
      ensures r ==
        if !hashable || (rpc.Breaks? && !rpc.misread) then Broken
        else if rpc.Breaks? || email in old(passwords) then AlreadyExists else Done
      ensures passwords ==
        if hashable && email !in old(passwords) && (rpc.Breaks? ==> rpc.applied) then old(passwords)[email := password]
        else old(passwords)
    {
      if !hashable {
        return Broken;
      }
      var known := email in passwords;
      if !known && (rpc.Works? || rpc.applied) {
        passwords := passwords[email := password];
      }
      if rpc.Breaks? {
        return if rpc.misread then AlreadyExists else Broken;
      }
      r := if known then AlreadyExists else Done;
    }

    method DeletePassword(email: string, rpc: Rpc) returns (r: Outcome)
      modifies this
      ensures r == if rpc.Breaks? then Broken else if email in old(passwords) then Done else NotFound
      ensures passwords == if rpc.Breaks? && !rpc.applied then old(passwords) else old(passwords) - {email}
    {
      var found := email in passwords;
      if rpc.Works? || rpc.applied {
        passwords := passwords - {email};
      }
      if rpc.Breaks? {
        return Broken;
      }
      r := if found then Done else NotFound;
    }
  }

  class Store {
    var rows: Rows

    constructor ()
      ensures rows == map[]
    {
      rows := map[];
    }

    /** INSERT: dex_user_id is unique. */
    method CreateMapping(m: Mapping, rpc: Rpc) returns (ok: bool)
      modifies this
      ensures ok == (m.dexUserID !in old(rows) && rpc.Works?)
      ensures rows ==
        if m.dexUserID !in old(rows) && (rpc.Breaks? ==> rpc.applied) then old(rows)[m.dexUserID := m] else old(rows)
    {
      ok := m.dexUserID !in rows;
      if ok && (rpc.Works? || rpc.applied) {
        rows := rows[m.dexUserID := m];
      }
      ok := ok && rpc.Works?;
    }

    /** `cause` is what the database says when it fails. */
    method DeleteMapping(dexUserID: string, rpc: Rpc, cause: string) returns (error: Option<string>)
      modifies this
      ensures error ==
        if rpc.Breaks? then Some(DeleteError(dexUserID, cause))
        else if dexUserID in old(rows) then None else Some(DeleteError(dexUserID, NO_ROWS))
      ensures rows == if rpc.Breaks? && !rpc.applied then old(rows) else old(rows) - {dexUserID}
    {
      var found := dexUserID in rows;
      if rpc.Works? || rpc.applied {
        rows := rows - {dexUserID};
      }
      if rpc.Breaks? {
        return Some(DeleteError(dexUserID, cause));
      }
      error := if found then None else Some(DeleteError(dexUserID, NO_ROWS));
    }
  }

  const NO_ROWS := "no rows in result set"

  /** The text of the error, which holds the id. */
  function DeleteError(dexUserID: string, cause: string): string {
    "delete mapping " + dexUserID + ": " + cause
  }

  lemma OccursLater(s: string, t: string, part: string)
    requires Contains(s, part) || Contains(t, part)
    ensures Contains(s + t, part)
  {
    if i :| 0 <= i <= |s| && OccursAt(s, part, i) {
      assert (s + t)[i..i + |part|] == s[i..i + |part|];
      assert OccursAt(s + t, part, i);
    } else {
      var i :| 0 <= i <= |t| && OccursAt(t, part, i);
      assert (s + t)[|s| + i..|s| + i + |part|] == t[i..i + |part|];
      assert OccursAt(s + t, part, |s| + i);
    }
  }

  /** What occurs in a text around ": " lies on one side of it, unless it holds a colon. */
  lemma OccursOnOneSide(s: string, t: string, part: string)
    requires Contains(s + ": " + t, part) && part != "" && ':' !in part && part[0] != ' '
    ensures Contains(s, part) || Contains(t, part)
  {
    var text := s + ": " + t;
    var i :| 0 <= i <= |text| && OccursAt(text, part, i);
    assert text[|s|] == ':' && text[|s| + 1] == ' ';
    assert forall j | 0 <= j < |part| :: part[j] == text[i..i + |part|][j] == text[i + j];
    assert i + |part| <= |s| || i > |s| + 1;
    if i + |part| <= |s| {
      assert s[i..i + |part|] == text[i..i + |part|];
      assert OccursAt(s, part, i);
    } else {
      var k := i - |s| - 2;
      assert t[k..k + |part|] == text[i..i + |part|];
      assert OccursAt(t, part, k);
    }
  }

  lemma OccursAfterPrefix(dexUserID: string)
    requires Contains("delete mapping " + dexUserID, "no rows")
    ensures Contains(dexUserID, "no rows")
  {
    var text := "delete mapping " + dexUserID;
    var i :| 0 <= i <= |text| && OccursAt(text, "no rows", i);
    assert text[i..i + 7][0] == text[i] == 'n' && text[i..i + 7][1] == text[i + 1] == 'o';
    assert |"delete mapping "| == 15;
    assert i >= 15;
    assert dexUserID[i - 15..i - 8] == text[i..i + 7];
    assert OccursAt(dexUserID, "no rows", i - 15);
  }

  /** The handler takes an error for a missing row exactly when its cause, or the id itself, says "no rows". */
  lemma ReadsAsMissingIff(dexUserID: string, cause: string)
    ensures Contains(DeleteError(dexUserID, cause), "no rows")
      <==> Contains(dexUserID, "no rows") || Contains(cause, "no rows")
  {
    var head := "delete mapping " + dexUserID;
    if Contains(DeleteError(dexUserID, cause), "no rows") {
      OccursOnOneSide(head, cause, "no rows");
      if Contains(head, "no rows") {
        OccursAfterPrefix(dexUserID);
      }
    } else if Contains(dexUserID, "no rows") {
      OccursLater("delete mapping ", dexUserID, "no rows");
      OccursLater(head, ": ", "no rows");
      OccursLater(head + ": ", cause, "no rows");
    } else if Contains(cause, "no rows") {
      OccursLater(head + ": ", cause, "no rows");
    }
  }

  // A request on its own, as a run of the step system.

  function Turn(rpc: Rpc): Action {
    if rpc.Works? then Advance(0) else Fault(0, rpc.applied, rpc.misread)
  }

  /** One request, then n of its store operations, with nothing in between. */
  function Alone(w: World, s: State, first: Action, rpcs: nat -> Rpc, n: nat): State {
    if n == 0 then Next(w, s, first) else Next(w, Alone(w, s, first, rpcs, n - 1), Turn(rpcs(n - 1)))
  }

  lemma {:induction false} AloneEnds(w: World, s: State, first: Action, rpcs: nat -> Rpc, k: nat, n: nat)
    requires k <= n && 0 !in Alone(w, s, first, rpcs, k).ops
    ensures Alone(w, s, first, rpcs, n) == Alone(w, s, first, rpcs, k)
  {
    if k < n {
      AloneEnds(w, s, first, rpcs, k, n - 1);
    }
  }

  /** Both stores, with nothing in flight, after one request was answered. */
  function Quiet(passwords: Passwords, rows: Rows, replies: seq<Provisioning.Reply>): State {
    State(passwords, rows, map[], replies)
  }

  function CreateReply(username: string, status: int): seq<Provisioning.Reply> {
    [if status == 201 then Created(username) else Failed(username, status)]
  }

  /** Nothing but one request is in flight. */
  function Only(passwords: Passwords, rows: Rows, op: Op): State {
    State(passwords, rows, map[0 := op], [])
  }

  lemma TurnCreating(w: World, passwords: Passwords, rows: Rows, r: CreateRequest, nonce: Nonce, rpc: Rpc)
    requires r.hashable && rpc.Works?
    ensures Next(w, Only(passwords, rows, Creating(r, nonce)), Turn(rpc)) ==
      if r.username in passwords then Only(passwords, rows, Replacing(r, nonce))
      else Only(passwords[r.username := r.password], rows, Storing(r, nonce))
  {
  }

  lemma TurnReplacing(w: World, passwords: Passwords, rows: Rows, r: CreateRequest, nonce: Nonce, rpc: Rpc)
    ensures Next(w, Only(passwords, rows, Replacing(r, nonce)), Turn(rpc)) ==
      if r.username !in passwords then Quiet(passwords, rows, CreateReply(r.username, 500))
      else if rpc.Works? then Only(passwords - {r.username}, rows, Recreating(r, nonce))
      else Quiet(if rpc.applied then passwords - {r.username} else passwords, rows, CreateReply(r.username, 500))
  {
  }

  lemma TurnRecreating(w: World, passwords: Passwords, rows: Rows, r: CreateRequest, nonce: Nonce, rpc: Rpc)
    requires r.username !in passwords
    ensures var created := passwords[r.username := r.password];
      Next(w, Only(passwords, rows, Recreating(r, nonce)), Turn(rpc)) ==
      if rpc.Works? then Only(created, rows, Storing(r, nonce))
      else Quiet(if rpc.applied then created else passwords, rows, CreateReply(r.username, 500))
  {
  }

  lemma TurnStoring(w: World, passwords: Passwords, rows: Rows, r: CreateRequest, nonce: Nonce, rpc: Rpc)
    ensures var encrypted := Encrypt(w.aead, r.apiKey, w.key, nonce);
      Next(w, Only(passwords, rows, Storing(r, nonce)), Turn(rpc)) ==
      if encrypted.None? || r.username in rows then Quiet(passwords, rows, CreateReply(r.username, 500))
      else
        var stored := rows[r.username := RowFor(r, encrypted.value)];
        if rpc.Works? then Quiet(passwords, stored, CreateReply(r.username, 201))
        else Quiet(passwords, if rpc.applied then stored else rows, CreateReply(r.username, 500))
  {
  }

  class Handler {
    const store: Store
    const dex: DexClient
    const world: World

    constructor (store: Store, dex: DexClient, world: World)
      ensures this.store == store && this.dex == dex && this.world == world
    {
      this.store, this.dex, this.world := store, dex, world;
    }

    /** The old password is deleted, and the new one is created. */
    method Recreate(req: CreateRequest, nonce: Nonce, rpcs: nat -> Rpc, ghost s: State) returns (ok: bool, ghost t: State)
      requires s == Only(dex.passwords, store.rows, Replacing(req, nonce)) && req.hashable
      modifies dex
      ensures t == Next(world, Next(world, s, Turn(rpcs(1))), Turn(rpcs(2)))
      ensures ok ==> t == Only(dex.passwords, store.rows, Storing(req, nonce))
      ensures !ok ==> t == Quiet(dex.passwords, store.rows, CreateReply(req.username, 500))
    {
      t := Next(world, Next(world, s, Turn(rpcs(1))), Turn(rpcs(2)));
      TurnReplacing(world, dex.passwords, store.rows, req, nonce, rpcs(1));
      var deleted := dex.DeletePassword(req.username, rpcs(1));
      if deleted != Done {
        return false, t;
      }
      TurnRecreating(world, dex.passwords, store.rows, req, nonce, rpcs(2));
      var created := dex.CreatePassword(req.username, req.password, req.hashable, rpcs(2));
      ok := created == Done;
    }

    /** The key is encrypted, and the row is inserted. */
    method StoreRow(req: CreateRequest, nonce: Nonce, rpc: Rpc, ghost s: State) returns (status: int, ghost t: State)
      requires s == Only(dex.passwords, store.rows, Storing(req, nonce))
      modifies store
      ensures t == Next(world, s, Turn(rpc))
      ensures t == Quiet(dex.passwords, store.rows, CreateReply(req.username, status))
    {
      t := Next(world, s, Turn(rpc));
      TurnStoring(world, dex.passwords, store.rows, req, nonce, rpc);
      var encryptedKey := Encrypt(world.aead, req.apiKey, world.key, nonce);
      if encryptedKey.None? {
        return 500, t;
      }
      var ok := store.CreateMapping(RowFor(req, encryptedKey.value), rpc);
      status := if ok then 201 else 500;
    }

    /** `accepted` is Odoo's verdict on the API key, and `rpcs` how the store operations go, one after the other. Both
        stores and the status are those of the request's own steps, uninterrupted. */
    method CreateUser(body: Option<CreateRequest>, nonce: Nonce, accepted: bool, rpcs: nat -> Rpc) returns (status: int)
      modifies store, dex
      ensures body.None? ==> status == 400 && dex.passwords == old(dex.passwords) && store.rows == old(store.rows)
      ensures body.Some? ==>
        Quiet(dex.passwords, store.rows, CreateReply(body.value.username, status))
        == Alone(world, Quiet(old(dex.passwords), old(store.rows), []), Create(0, body.value, nonce, accepted), rpcs, 4)
    {
      if body.None? {
        return 400;
      }
      var req := body.value;
      ghost var first, s0 := Create(0, req, nonce, accepted), Quiet(dex.passwords, store.rows, []);
      if req.username == "" || req.password == "" || req.odooURL == ""
         || req.odooDB == "" || req.odooLogin == "" || req.apiKey == [] {
        AloneEnds(world, s0, first, rpcs, 0, 4);
        return 400;
      }
      if !accepted {
        AloneEnds(world, s0, first, rpcs, 0, 4);
        return 401;
      }
      assert Alone(world, s0, first, rpcs, 0).ops == map[0 := Creating(req, nonce)];
      ghost var s := Alone(world, s0, first, rpcs, 1);
      var created := dex.CreatePassword(req.username, req.password, req.hashable, rpcs(0));
      var next := 1;
      if created != Done {
        if created != AlreadyExists {
          AloneEnds(world, s0, first, rpcs, 1, 4);
          return 500;
        }
        assert s.ops == map[0 := Replacing(req, nonce)];
        var ok;
        ok, s := Recreate(req, nonce, rpcs, s);
        assert s == Alone(world, s0, first, rpcs, 3);
        if !ok {
          AloneEnds(world, s0, first, rpcs, 3, 4);
          return 500;
        }
        next := 3;
      }
      assert s.ops == map[0 := Storing(req, nonce)];
      status, s := StoreRow(req, nonce, rpcs(next), s);
      assert s == Alone(world, s0, first, rpcs, next + 1);
      AloneEnds(world, s0, first, rpcs, next + 1, 4);
    }

    /** The Dex password of a deleted user stays. A failing database reads as a missing row, too, when its error or the
        id says "no rows". */
    method DeleteUser(dexUserID: string, rpc: Rpc, cause: string) returns (status: int)
      modifies store
      ensures status ==
        if dexUserID == "" then 400
        else if rpc.Works? then (if dexUserID in old(store.rows) then 204 else 404)
        else if Contains(dexUserID, "no rows") || Contains(cause, "no rows") then 404 else 500
      ensures store.rows ==
        if dexUserID == "" || (rpc.Breaks? && !rpc.applied) then old(store.rows) else old(store.rows) - {dexUserID}
    {
      if dexUserID == "" {
        return 400;
      }
      ReadsAsMissingIff(dexUserID, cause);
      ReadsAsMissingIff(dexUserID, NO_ROWS);
      assert OccursAt(NO_ROWS, "no rows", 0);
      var error := store.DeleteMapping(dexUserID, rpc, cause);
      if error.Some? {
        if Contains(error.value, "no rows") {
          return 404;
        }
        return 500;
      }
      status := 204;
    }

    /** Nothing happens once any user exists, or when the users cannot be listed. */
    method BootstrapAdmin(username: string, password: string, hashable: bool, lists: bool, rpcs: nat -> Rpc)
      returns (ok: bool)
      modifies store, dex
      ensures !lists ==> !ok && dex.passwords == old(dex.passwords) && store.rows == old(store.rows)
      ensures lists ==>
        Quiet(dex.passwords, store.rows,
              if !ok then [Failed(username, 500)] else if old(store.rows) == map[] then [Booted(username)] else [])
        == Alone(world, Quiet(old(dex.passwords), old(store.rows), []),
                 Bootstrap(0, username, password, hashable), rpcs, 2)
      ensures lists && old(store.rows) != map[] ==>
        ok && store.rows == old(store.rows) && dex.passwords == old(dex.passwords)
      ensures lists && old(store.rows) == map[] && rpcs(0) == Works && rpcs(1) == Works ==>
        && ok == (hashable && username !in old(dex.passwords))
        && dex.passwords == (if ok then old(dex.passwords)[username := password] else old(dex.passwords))
        && store.rows == (if ok then map[username := Mapping(username, username, "", "", "", 0, "")] else map[])
    {
      if !lists {
        return false;
      }
      ghost var first, s0 := Bootstrap(0, username, password, hashable), Quiet(dex.passwords, store.rows, []);
      if store.rows != map[] {
        AloneEnds(world, s0, first, rpcs, 0, 2);
        return true;
      }
      assert Alone(world, s0, first, rpcs, 0).ops == map[0 := Booting(username, password, hashable)];
      var created := dex.CreatePassword(username, password, hashable, rpcs(0));
      if created != Done {
        AloneEnds(world, s0, first, rpcs, 1, 2);
        return false;
      }
      assert Alone(world, s0, first, rpcs, 1).ops == map[0 := BootStoring(username)];
      ok := store.CreateMapping(AdminRow(username), rpcs(1));
    }
  }

  // What creating a user alone comes to when every RPC works.

  function CreateOutcome(w: World, passwords: Passwords, rows: Rows, r: CreateRequest, nonce: Nonce, accepted: bool)
    : (Passwords, Rows, int)
  {
    if !Complete(r) then (passwords, rows, 400)
    else if !accepted then (passwords, rows, 401)
    else if !r.hashable then (passwords, rows, 500)
    else
      var replaced := passwords[r.username := r.password];
      if !ValidKey(w.key) || r.username in rows then (replaced, rows, 500)
      else (replaced, rows[r.username := RowFor(r, Encrypt(w.aead, r.apiKey, w.key, nonce).value)], 201)
  }

  /** Whether or not the user had a password, the row is about to be stored, next to the new password. */
  lemma PasswordReplaced(w: World, passwords: Passwords, rows: Rows, r: CreateRequest, nonce: Nonce, rpcs: nat -> Rpc)
    returns (k: nat)
    requires Complete(r) && r.hashable && forall i :: rpcs(i) == Works
    ensures k < 4
    ensures Alone(w, Quiet(passwords, rows, []), Create(0, r, nonce, true), rpcs, k)
         == Only(passwords[r.username := r.password], rows, Storing(r, nonce))
  {
    var s0, first := Quiet(passwords, rows, []), Create(0, r, nonce, true);
    assert Alone(w, s0, first, rpcs, 0) == Only(passwords, rows, Creating(r, nonce));
    TurnCreating(w, passwords, rows, r, nonce, rpcs(0));
    k := 1;
    if r.username in passwords {
      var without := passwords - {r.username};
      TurnReplacing(w, passwords, rows, r, nonce, rpcs(1));
      assert Alone(w, s0, first, rpcs, 2) == Only(without, rows, Recreating(r, nonce));
      TurnRecreating(w, without, rows, r, nonce, rpcs(2));
      assert without[r.username := r.password] == passwords[r.username := r.password];
      k := 3;
    }
  }

  lemma CreateRefused(
      w: World, passwords: Passwords, rows: Rows, r: CreateRequest, nonce: Nonce, accepted: bool, rpcs: nat -> Rpc)
    requires !Complete(r) || !accepted
    ensures Alone(w, Quiet(passwords, rows, []), Create(0, r, nonce, accepted), rpcs, 4)
         == Quiet(passwords, rows, CreateReply(r.username, if Complete(r) then 401 else 400))
  {
    AloneEnds(w, Quiet(passwords, rows, []), Create(0, r, nonce, accepted), rpcs, 0, 4);
  }

  lemma CreateUnhashable(w: World, passwords: Passwords, rows: Rows, r: CreateRequest, nonce: Nonce, rpcs: nat -> Rpc)
    requires Complete(r) && !r.hashable
    ensures Alone(w, Quiet(passwords, rows, []), Create(0, r, nonce, true), rpcs, 4)
         == Quiet(passwords, rows, CreateReply(r.username, 500))
  {
    var s0, first := Quiet(passwords, rows, []), Create(0, r, nonce, true);
    assert Alone(w, s0, first, rpcs, 0) == Only(passwords, rows, Creating(r, nonce));
    AloneEnds(w, s0, first, rpcs, 1, 4);
  }

  /** Storing the row is the last thing a request does. */
  lemma StoringEnds(
      w: World, s: State, first: Action, rpcs: nat -> Rpc, k: nat,
      passwords: Passwords, rows: Rows, r: CreateRequest, nonce: Nonce)
    requires k < 4 && rpcs(k) == Works
    requires Alone(w, s, first, rpcs, k) == Only(passwords, rows, Storing(r, nonce))
    ensures Alone(w, s, first, rpcs, 4) == Next(w, Only(passwords, rows, Storing(r, nonce)), Advance(0))
  {
    TurnStoring(w, passwords, rows, r, nonce, Works);
    assert Alone(w, s, first, rpcs, k + 1) == Next(w, Only(passwords, rows, Storing(r, nonce)), Advance(0));
    AloneEnds(w, s, first, rpcs, k + 1, 4);
  }

  lemma CreateStored(w: World, passwords: Passwords, rows: Rows, r: CreateRequest, nonce: Nonce, rpcs: nat -> Rpc)
    requires Complete(r) && r.hashable && forall i :: rpcs(i) == Works
    ensures Alone(w, Quiet(passwords, rows, []), Create(0, r, nonce, true), rpcs, 4)
         == Next(w, Only(passwords[r.username := r.password], rows, Storing(r, nonce)), Advance(0))
  {
    var k := PasswordReplaced(w, passwords, rows, r, nonce, rpcs);
    StoringEnds(w, Quiet(passwords, rows, []), Create(0, r, nonce, true), rpcs, k,
                passwords[r.username := r.password], rows, r, nonce);
  }

  /** Run without interruption and faults, creating a user ends in these stores and with this status. */
  lemma CreateAlone(
      w: World, passwords: Passwords, rows: Rows, r: CreateRequest, nonce: Nonce, accepted: bool, rpcs: nat -> Rpc)
    requires forall i :: rpcs(i) == Works
    ensures var (passwords', rows', status) := CreateOutcome(w, passwords, rows, r, nonce, accepted);
      Alone(w, Quiet(passwords, rows, []), Create(0, r, nonce, accepted), rpcs, 4)
      == Quiet(passwords', rows', CreateReply(r.username, status))
  {
    if !Complete(r) || !accepted {
      CreateRefused(w, passwords, rows, r, nonce, accepted, rpcs);
    } else if !r.hashable {
      CreateUnhashable(w, passwords, rows, r, nonce, rpcs);
    } else {
      CreateStored(w, passwords, rows, r, nonce, rpcs);
      TurnStoring(w, passwords[r.username := r.password], rows, r, nonce, Works);
    }
  }

  /** The bootstrap run without interruption and faults: the given password, and a row without credentials. */
  lemma BootstrapAlone(
      w: World, passwords: Passwords, username: string, password: string, hashable: bool, rpcs: nat -> Rpc)
    requires forall i :: rpcs(i) == Works
    ensures Alone(w, Quiet(passwords, map[], []), Bootstrap(0, username, password, hashable), rpcs, 2) ==
      if hashable && username !in passwords then
        Quiet(passwords[username := password], map[username := Mapping(username, username, "", "", "", 0, "")],
              [Booted(username)])
      else Quiet(passwords, map[], [Failed(username, 500)])
  {
    var s0, first := Quiet(passwords, map[], []), Bootstrap(0, username, password, hashable);
    assert Alone(w, s0, first, rpcs, 0) == Only(passwords, map[], Booting(username, password, hashable));
    if hashable && username !in passwords {
      assert Alone(w, s0, first, rpcs, 1) == Only(passwords[username := password], map[], BootStoring(username));
    } else {
      AloneEnds(w, s0, first, rpcs, 1, 2);
    }
  }

  /** The bootstrap admin logs in without credentials, and gets the shared server. */
  lemma AdminIsShared(
      w: World, username: string, header: string, token: string, email: string, subject: string)
    requires header == "Bearer " + token || header == "bearer " + token
    requires w.verify(token) == Some(Claims(email, subject)) && username == if email != "" then email else subject
    ensures var login := Login(w, Table(map[username := Mapping(username, username, "", "", "", 0, "")]), header);
      login == Proceed(Context(None, None, None)) && ChooseServer(login.context) == Shared
  {
    LoginByToken(w, map[username := Mapping(username, username, "", "", "", 0, "")], header, token, email, subject);
  }

  /** The outcome in the terms of the request. */
  lemma CreateOutcomeSays(
      w: World, passwords: Passwords, rows: Rows, r: CreateRequest, nonce: Nonce, accepted: bool)
    requires Lawful(w.aead)
    ensures var (passwords', rows', status) := CreateOutcome(w, passwords, rows, r, nonce, accepted);
      if r.username == "" || r.password == "" || r.odooURL == "" || r.odooDB == "" || r.odooLogin == "" || r.apiKey == []
      then status == 400 && passwords' == passwords && rows' == rows
      else if !accepted then status == 401 && passwords' == passwords && rows' == rows
      else if !r.hashable then status == 500 && passwords' == passwords && rows' == rows
      else
        && passwords' == passwords[r.username := r.password]
        && if r.username in rows || (|w.key| != 16 && |w.key| != 24 && |w.key| != 32) then status == 500 && rows' == rows
           else
             && status == 201 && rows'.Keys == rows.Keys + {r.username}
             && (forall u | u in rows :: rows'[u] == rows[u])
             && var m := rows'[r.username];
                && m == Mapping(r.username, r.username, r.odooURL, r.odooDB, r.odooLogin, r.odooUID, m.apiKeyEncrypted)
                && Decrypt(w.aead, m.apiKeyEncrypted, w.key) == Some(r.apiKey)
  {
    DecryptUndoesEncrypt(w.aead, r.apiKey, w.key, nonce);
  }

  /** After 201 the user logs in with exactly the submitted credentials; every other user does as before. */
  lemma CreateUserLogin(
      w: World, passwords: Passwords, rows: Rows, r: CreateRequest, nonce: Nonce, accepted: bool,
      header: string, token: string, email: string, subject: string)
    requires Lawful(w.aead)
    requires CreateOutcome(w, passwords, rows, r, nonce, accepted).2 == 201
    requires header == "Bearer " + token || header == "bearer " + token
    requires w.verify(token) == Some(Claims(email, subject))
    ensures var rows' := CreateOutcome(w, passwords, rows, r, nonce, accepted).1;
      var user := if email != "" then email else subject;
      Login(w, Table(rows'), header) ==
        if user == r.username then Proceed(Context(Some(r.apiKey), Some(r.odooURL), Some(r.odooDB)))
        else Login(w, Table(rows), header)
  {
    var rows' := CreateOutcome(w, passwords, rows, r, nonce, accepted).1;
    DecryptUndoesEncrypt(w.aead, r.apiKey, w.key, nonce);
    LoginByToken(w, rows, header, token, email, subject);
    LoginByToken(w, rows', header, token, email, subject);
  }

  /** No login of a token that is not the user's changes. */
  lemma OtherLoginsStay(
      w: World, passwords: Passwords, rows: Rows, r: CreateRequest, nonce: Nonce, accepted: bool, header: string)
    requires !Presents(w, header, r.username)
    ensures Login(w, Table(CreateOutcome(w, passwords, rows, r, nonce, accepted).1), header)
         == Login(w, Table(rows), header)
  {
  }
}
