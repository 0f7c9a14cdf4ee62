/** Users: their Dex passwords and mapping rows, the login that reads them back, and the choice of server. */
module Accounts {
  import opened Wrappers
  import opened Crypto

  datatype Mapping = Mapping(
    dexUserID: string, email: string, odooURL: string, odooDB: string, odooLogin: string, odooUID: int,
    apiKeyEncrypted: string)

  /** Rows of user_mappings by dex_user_id, and Dex passwords by email. */
  type Rows = map<string, Mapping>
  type Passwords = map<string, string>

  /** The body of POST /admin/users; `hashable` tells whether bcrypt takes the password. */
  datatype CreateRequest = CreateRequest(
    username: string, password: string, hashable: bool,
    odooURL: string, odooDB: string, odooLogin: string, odooUID: int, apiKey: Bytes)

  predicate Complete(r: CreateRequest) {
    r.username != "" && r.password != "" && r.odooURL != "" && r.odooDB != "" && r.odooLogin != "" && r.apiKey != []
  }

  function RowFor(r: CreateRequest, encrypted: string): Mapping {
    Mapping(r.username, r.username, r.odooURL, r.odooDB, r.odooLogin, r.odooUID, encrypted)
  }

  /** The bootstrap admin has no Odoo credentials. */
  function AdminRow(username: string): Mapping {
    Mapping(username, username, "", "", "", 0, "")
  }

  datatype Claims = Claims(email: string, subject: string)

  /** What the server is configured with: the AEAD and its key, the token verifier, and the direct probe, which
      gives a token's bytes when they work as an Odoo API key (never, when no Odoo URL is configured). */
  datatype World = World(
    aead: Aead, key: Bytes, verify: string -> Option<Claims>, probe: string -> Option<Bytes>)

  /** The values the auth middleware leaves in the request context. */
  datatype Context = Context(apiKey: Option<Bytes>, odooURL: Option<string>, odooDB: Option<string>)

  const NO_CREDENTIALS := Context(None, None, None)

  /** What the lookup of a row meets: no store is configured, the database fails, or it answers. */
  datatype Database = NoStore | Failing | Table(rows: Rows)

  datatype Response = Unauthorized | InternalError | Proceed(context: Context)

  datatype Server = Shared | PerUser(odooURL: string, odooDB: string, apiKey: Bytes)

  /** The token behind "Bearer " or "bearer ". */
  function BearerToken(header: string): Option<string> {
    if "Bearer " <= header || "bearer " <= header then Some(header[7..]) else None
  }

  /** The email is the lookup key; a token without one is looked up by its subject. */
  function LookupKey(c: Claims): string {
    if c.email == "" then c.subject else c.email
  }

  /** What a request is answered or allowed to proceed with. */
  function Login(w: World, db: Database, header: string): Response {
    var token := BearerToken(header);
    if token.None? then Unauthorized
    else if w.verify(token.value).None? then
      if w.probe(token.value).Some? then Proceed(Context(w.probe(token.value), None, None)) else Unauthorized
    else
      var user := LookupKey(w.verify(token.value).value);
      match db
      case NoStore => Proceed(NO_CREDENTIALS)
      case Failing => InternalError
      case Table(rows) =>
        if user !in rows then Unauthorized
        else if rows[user].apiKeyEncrypted == "" then Proceed(NO_CREDENTIALS)
        else
          var key := Decrypt(w.aead, rows[user].apiKeyEncrypted, w.key);
          if key.None? then InternalError
          else Proceed(Context(key, Some(rows[user].odooURL), Some(rows[user].odooDB)))
  }

  /** The per-user server when all three credentials are there and non-empty, the shared one otherwise. */
  function ChooseServer(c: Context): Server {
    if c.apiKey.Some? && c.odooURL.Some? && c.odooDB.Some? then
      if c.apiKey.value != [] && c.odooURL.value != "" && c.odooDB.value != ""
      then PerUser(c.odooURL.value, c.odooDB.value, c.apiKey.value)
      else Shared
    else Shared
  }

  /** The middleware's cascade as it runs. */
  method Middleware(w: World, db: Database, header: string) returns (r: Response)
    ensures r == Login(w, db, header)
  {
    if !("Bearer " <= header) && !("bearer " <= header) {
      return Unauthorized;
    }
    var token := if "Bearer " <= header then header[|"Bearer "|..] else header;
    if token == header {
      token := header[|"bearer "|..];
    }
    var context := NO_CREDENTIALS;
    var claims := w.verify(token);
    if claims.Some? {
      var lookupKey := claims.value.email;
      if lookupKey == "" {
        lookupKey := claims.value.subject;
      }
      if db != NoStore {
        if db == Failing {
          return InternalError;
        }
        if lookupKey !in db.rows {
          return Unauthorized;
        }
        var mapping := db.rows[lookupKey];
        if mapping.apiKeyEncrypted != "" {
          var apiKey := Decrypt(w.aead, mapping.apiKeyEncrypted, w.key);
          if apiKey.None? {
            return InternalError;
          }
          context := context.(odooURL := Some(mapping.odooURL));
          context := context.(odooDB := Some(mapping.odooDB));
          context := context.(apiKey := apiKey);
        }
      }
      return Proceed(context);
    }
    var direct := w.probe(token);
    if direct.Some? {
      context := context.(apiKey := direct);
      return Proceed(context);
    }
    return Unauthorized;
  }

  /** A verified token is looked up by its email claim, and by its subject only when it has no email: whatever the subject
      is, the row under the email decides. */
  lemma LoginByToken(w: World, rows: Rows, header: string, token: string, email: string, subject: string)
    requires header == "Bearer " + token || header == "bearer " + token
    requires w.verify(token) == Some(Claims(email, subject))
    ensures var user := if email != "" then email else subject;
      Login(w, Table(rows), header) ==
        if user !in rows then Unauthorized
        else if rows[user].apiKeyEncrypted == "" then Proceed(Context(None, None, None))
        else match Decrypt(w.aead, rows[user].apiKeyEncrypted, w.key)
          case None => InternalError
          case Some(key) => Proceed(Context(Some(key), Some(rows[user].odooURL), Some(rows[user].odooDB)))
    ensures Login(w, NoStore, header) == Proceed(Context(None, None, None))
    ensures Login(w, Failing, header) == InternalError
  {
    assert header[7..] == token;
  }

  /** Any other token is taken for an Odoo API key, and a header without a token is refused. */
  lemma LoginWithoutClaims(w: World, db: Database, header: string, token: string)
    requires w.verify(token) == None
    ensures header == "Bearer " + token || header == "bearer " + token ==>
      Login(w, db, header) ==
        if w.probe(token).Some? then Proceed(Context(w.probe(token), None, None)) else Unauthorized
    ensures !("Bearer " <= header) && !("bearer " <= header) ==> Login(w, db, header) == Unauthorized
  {
    assert header == "Bearer " + token || header == "bearer " + token ==> header[7..] == token;
  }

  /** The token is verified and belongs to `user`. */
  predicate Presents(w: World, header: string, user: string) {
    && BearerToken(header).Some?
    && w.verify(BearerToken(header).value).Some?
    && LookupKey(w.verify(BearerToken(header).value).value) == user
  }

  /** The row CreateUser stores gives back exactly the submitted credentials, and the user's own server. */
  lemma StoredRowRoundTrip(w: World, rows: Rows, r: CreateRequest, nonce: Nonce, header: string)
    requires Lawful(w.aead) && ValidKey(w.key) && Complete(r)
    requires r.username in rows && Presents(w, header, r.username)
    requires rows[r.username] == RowFor(r, Encrypt(w.aead, r.apiKey, w.key, nonce).value)
    ensures Login(w, Table(rows), header) == Proceed(Context(Some(r.apiKey), Some(r.odooURL), Some(r.odooDB)))
    ensures ChooseServer(Login(w, Table(rows), header).context) == PerUser(r.odooURL, r.odooDB, r.apiKey)
  {
    DecryptUndoesEncrypt(w.aead, r.apiKey, w.key, nonce);
  }

  /** Which requests get a server of their own: exactly those of a verified user with a complete, decryptable row. */
  lemma PerUserIsExact(w: World, db: Database, header: string, odooURL: string, odooDB: string, apiKey: Bytes)
    requires Lawful(w.aead)
    ensures Login(w, db, header).Proceed? && ChooseServer(Login(w, db, header).context) == PerUser(odooURL, odooDB, apiKey)
      <==>
      && odooURL != "" && odooDB != "" && apiKey != []
      && db.Table?
      && exists user | user in db.rows && Presents(w, header, user) ::
           && db.rows[user].odooURL == odooURL && db.rows[user].odooDB == odooDB
           && Decrypt(w.aead, db.rows[user].apiKeyEncrypted, w.key) == Some(apiKey)
  {
  }
}
