/** Server credentials: secrets go to `.env`, the rest to `config.toml`, and both are read at start-up. */
module Credentials {
  import opened Basics
  import opened EnvFile
  import EnvText

  /** A server entry; `rest` stands for the fields that play no part here. */
  datatype Server = Server(rest: string, saslUser: Option<string>, password: Option<string>, saslPass: Option<string>)

  datatype CredUpdate = Keep | Set(value: string) | Remove

  /** What the session holds and what is on disk; `toml` holds servers without their secrets. */
  datatype App = App(servers: map<string, Server>, toml: map<string, Server>, env: Option<string>)

  /** Which of the three writes succeed. */
  datatype Io = Io(tomlOk: bool, passwordOk: bool, saslOk: bool)

  function UpperChar(c: char): char {
    if 'a' <= c <= 'z' then 'A' + (c as int - 'a' as int) as char else c
  }

  function Upper(s: string): (u: string)
    ensures |u| == |s|
  {
    seq(|s|, i requires 0 <= i < |s| => UpperChar(s[i]))
  }

  function PasswordKey(id: string): string {
    Upper(id) + "_PASSWORD"
  }

  function SaslPassKey(id: string): string {
    Upper(id) + "_SASL_PASS"
  }

  function SaslUserKey(id: string): string {
    Upper(id) + "_SASL_USER"
  }

  /** A lower-case ASCII id that makes a key the file can hold. */
  predicate ValidId(id: string) {
    && (forall i | 0 <= i < |id| :: '!' <= id[i] <= '~' && !('A' <= id[i] <= 'Z') && id[i] != '=')
    && (id != "" ==> id[0] != '#')
  }

  function WithoutSecrets(s: Server): Server {
    s.(password := None, saslPass := None)
  }

  function Lookup(env: Env, key: string): Option<string> {
    if key in env then Some(env[key]) else None
  }

  function OrElse(a: Option<string>, b: Option<string>): Option<string> {
    if a.Some? then a else b
  }

  // ---------------------------------------------------------------- start-up

  function Credentialed(id: string, s: Server, env: Env): Server {
    s.(saslUser := OrElse(Lookup(env, SaslUserKey(id)), s.saslUser),
       saslPass := OrElse(Lookup(env, SaslPassKey(id)), s.saslPass),
       password := OrElse(Lookup(env, PasswordKey(id)), s.password))
  }

  function CredentialedAll(servers: map<string, Server>, env: Env): map<string, Server> {
    map id <- servers :: id := Credentialed(id, servers[id], env)
  }

  /** `apply_credentials` */
  method ApplyCredentials(servers: map<string, Server>, env: Env) returns (r: map<string, Server>)
    ensures r == CredentialedAll(servers, env)
  {
    r := servers;
    var todo := servers.Keys;
    while todo != {}
      invariant todo <= servers.Keys && r.Keys == servers.Keys
      invariant forall id <- servers :: r[id] == if id in todo then servers[id] else Credentialed(id, servers[id], env)
      decreases |todo|
    {
      var id :| id in todo;
      todo := todo - {id};
      var server := r[id];
      if SaslUserKey(id) in env {
        server := server.(saslUser := Some(env[SaslUserKey(id)]));
      }
      if SaslPassKey(id) in env {
        server := server.(saslPass := Some(env[SaslPassKey(id)]));
      }
      if PasswordKey(id) in env {
        server := server.(password := Some(env[PasswordKey(id)]));
      }
      r := r[id := server];
    }
  }

  function StartUp(toml: map<string, Server>, env: Option<string>): App {
    App(CredentialedAll(toml, EnvOf(env)), toml, env)
  }

  /** The servers a restart would come up with. */
  function Rebuilt(app: App): map<string, Server> {
    CredentialedAll(app.toml, EnvOf(app.env))
  }

  // ---------------------------------------------------------------- saving a server

  function Resolve(update: CredUpdate, existing: Option<string>): Option<string> {
    match update
    case Keep => existing
    case Set(v) => Some(v)
    case Remove => None
  }

  function StoreSecret(env: Option<string>, key: string, update: CredUpdate): Option<string> {
    match update
    case Keep => env
    case Set(v) => Some(Unlines(SetLine(FileLines(env), key, v)))
    case Remove => RemoveEnvValue(env, key)
  }

  function Existing(servers: map<string, Server>, id: string): (Option<string>, Option<string>) {
    if id in servers then (servers[id].password, servers[id].saslPass) else (None, None)
  }

  function Resolved(servers: map<string, Server>, id: string, server: Server, password: CredUpdate,
                    saslPass: CredUpdate): Server
  {
    var (pw, sasl) := Existing(servers, id);
    server.(password := Resolve(password, pw), saslPass := Resolve(saslPass, sasl))
  }

  function Stripped(servers: map<string, Server>): map<string, Server> {
    map id <- servers :: id := WithoutSecrets(servers[id])
  }

  /** `apply_server_config`, and whether it reported success. */
  function Saved(app: App, id: string, server: Server, password: CredUpdate, saslPass: CredUpdate, io: Io)
    : (App, bool)
  {
    var servers := app.servers[id := Resolved(app.servers, id, server, password, saslPass)];
    var app1 := app.(servers := servers);
    if !io.tomlOk then (app1, false)
    else
      var app2 := app1.(toml := Stripped(servers));
      if !io.passwordOk && !password.Keep? then (app2, false)
      else
        var app3 := app2.(env := StoreSecret(app2.env, PasswordKey(id), password));
        if !io.saslOk && !saslPass.Keep? then (app3, false)
        else (app3.(env := StoreSecret(app3.env, SaslPassKey(id), saslPass)), true)
  }

  /** `/server remove`: nothing happens unless the configuration can be saved. */
  function Removed(app: App, id: string, io: Io): (App, bool) {
    if id !in app.servers || !io.tomlOk then (app, false)
    else
      var servers := app.servers - {id};
      var app1 := app.(servers := servers, toml := Stripped(servers));
      var app2 := if io.passwordOk then app1.(env := RemoveEnvValue(app1.env, PasswordKey(id))) else app1;
      var app3 := if io.saslOk then app2.(env := RemoveEnvValue(app2.env, SaslPassKey(id))) else app2;
      (app3, io.passwordOk && io.saslOk)
  }

  class Session {
    var servers: map<string, Server>
    var toml: map<string, Server>
    var env: Option<string>

    function View(): App
      reads this
    {
      App(servers, toml, env)
    }

    /** Start-up: the configuration as saved, the credentials from `.env`. */
    constructor (toml: map<string, Server>, env: Option<string>)
      ensures View() == StartUp(toml, env)
    {
      var vars := LoadEnv(env);
      var servers := ApplyCredentials(toml, vars);
      this.servers, this.toml, this.env := servers, toml, env;
    }

    method ApplyServerConfig(id: string, server: Server, password: CredUpdate, saslPass: CredUpdate, io: Io)
      returns (ok: bool)
      modifies this
      ensures (View(), ok) == Saved(old(View()), id, server, password, saslPass, io)
    {
      var (existingPw, existingSasl) := Existing(servers, id);
      var resolved := server.(password := Resolve(password, existingPw), saslPass := Resolve(saslPass, existingSasl));
      servers := servers[id := resolved];
      if !io.tomlOk {
        return false;
      }
      toml := Stripped(servers);
      match password {
        case Keep =>
        case Set(v) =>
          if !io.passwordOk {
            return false;
          }
          var content := SetEnvValue(env, PasswordKey(id), v);
          env := Some(content);
        case Remove =>
          if !io.passwordOk {
            return false;
          }
          env := RemoveEnvValue(env, PasswordKey(id));
      }
      match saslPass {
        case Keep =>
        case Set(v) =>
          if !io.saslOk {
            return false;
          }
          var content := SetEnvValue(env, SaslPassKey(id), v);
          env := Some(content);
        case Remove =>
          if !io.saslOk {
            return false;
          }
          env := RemoveEnvValue(env, SaslPassKey(id));
      }
      return true;
    }

    method RemoveServer(id: string, io: Io) returns (ok: bool)
      modifies this
      ensures (View(), ok) == Removed(old(View()), id, io)
    {
      if id !in servers {
        return false;
      }
      var removed := servers[id];
      servers := servers - {id};
      if !io.tomlOk {
        servers := servers[id := removed];
        assert servers == old(servers);
        return false;
      }
      toml := Stripped(servers);
      if io.passwordOk {
        env := RemoveEnvValue(env, PasswordKey(id));
      }
      if io.saslOk {
        env := RemoveEnvValue(env, SaslPassKey(id));
      }
      return io.passwordOk && io.saslOk;
    }
  }

  // ---------------------------------------------------------------- keys

  lemma UpperInjective(a: string, b: string)
    requires ValidId(a) && ValidId(b) && Upper(a) == Upper(b)
    ensures a == b
  {
    forall i | 0 <= i < |a|
      ensures a[i] == b[i]
    {
      assert Upper(a)[i] == Upper(b)[i];
    }
  }

  /** Keys of different servers or of different secrets never coincide. */
  lemma KeysDiffer(a: string, b: string)
    requires ValidId(a) && ValidId(b)
    ensures PasswordKey(a) == PasswordKey(b) ==> a == b
    ensures SaslPassKey(a) == SaslPassKey(b) ==> a == b
    ensures PasswordKey(a) != SaslPassKey(b)
    ensures SaslUserKey(a) != PasswordKey(b) && SaslUserKey(a) != SaslPassKey(b)
  {
    var (p, s, u) := (PasswordKey(a), SaslPassKey(b), SaslUserKey(a));
    if PasswordKey(a) == PasswordKey(b) {
      SplitRight(Upper(a), "_PASSWORD", Upper(b), "_PASSWORD");
      UpperInjective(a, b);
    }
    if SaslPassKey(a) == SaslPassKey(b) {
      SplitRight(Upper(a), "_SASL_PASS", Upper(b), "_SASL_PASS");
      UpperInjective(a, b);
    }
    assert p[|p| - 1] == 'D' && s[|s| - 1] == 'S' && u[|u| - 1] == 'R';
    var q := PasswordKey(b);
    assert q[|q| - 1] == 'D';
  }

  lemma CleanSuffix(id: string, suffix: string)
    requires ValidId(id) && suffix != "" && forall i | 0 <= i < |suffix| :: 'A' <= suffix[i] <= '_'
    ensures CleanKey(Upper(id) + suffix)
  {
    var key := Upper(id) + suffix;
    forall i | 0 <= i < |key|
      ensures '!' <= key[i] <= '~' && key[i] != '='
    {
      if i < |id| {
        assert key[i] == UpperChar(id[i]);
      } else {
        assert key[i] == suffix[i - |id|];
      }
    }
    assert key[0] != '#';
  }

  lemma KeysClean(id: string)
    requires ValidId(id)
    ensures CleanKey(PasswordKey(id)) && CleanKey(SaslPassKey(id))
  {
    CleanSuffix(id, "_PASSWORD");
    CleanSuffix(id, "_SASL_PASS");
  }

  // ---------------------------------------------------------------- agreement

  /** The value is read back as it was given. */
  predicate ReadsBack(update: CredUpdate) {
    update.Set? ==> OneLine(update.value) && ParseValue(update.value) == update.value
  }

  predicate OneLineUpdate(update: CredUpdate) {
    update.Set? ==> OneLine(update.value)
  }

  /** The map after a secret was stored. */
  function EnvAfter(env: Env, key: string, update: CredUpdate): Env {
    match update
    case Keep => env
    case Set(v) => env[key := ParseValue(v)]
    case Remove => env - {key}
  }

  lemma StoredSecret(file: Option<string>, key: string, update: CredUpdate)
    requires TidyFile(file) && CleanKey(key) && OneLineUpdate(update)
    ensures TidyFile(StoreSecret(file, key, update))
    ensures EnvOf(StoreSecret(file, key, update)) == EnvAfter(EnvOf(file), key, update)
  {
    match update
    case Keep =>
    case Set(v) => SetFile(file, key, v);
    case Remove => RemoveFile(file, key);
  }

  predicate SecretFree(toml: map<string, Server>) {
    forall id <- toml :: ValidId(id) && toml[id] == WithoutSecrets(toml[id])
  }

  /** A restart would come up with the very servers the session holds. What else `.env` holds is no matter. */
  ghost predicate Agrees(app: App) {
    TidyFile(app.env) && SecretFree(app.toml) && Rebuilt(app) == app.servers
  }

  lemma AgreementIsPerServer(app: App, id: string)
    requires Agrees(app) && id in app.servers
    ensures ValidId(id) && id in app.toml && app.servers[id] == Credentialed(id, app.toml[id], EnvOf(app.env))
    ensures Lookup(EnvOf(app.env), PasswordKey(id)) == app.servers[id].password
    ensures Lookup(EnvOf(app.env), SaslPassKey(id)) == app.servers[id].saslPass
    ensures SaslUserKey(id) in EnvOf(app.env) ==> app.servers[id].saslUser == Some(EnvOf(app.env)[SaslUserKey(id)])
  {
    assert app.servers[id] == Rebuilt(app)[id];
    assert app.toml[id] == WithoutSecrets(app.toml[id]);
  }

  /** What agreement says of one server. */
  predicate ServerAgrees(env: Env, id: string, saved: Server, held: Server) {
    && Lookup(env, PasswordKey(id)) == held.password && Lookup(env, SaslPassKey(id)) == held.saslPass
    && held.rest == saved.rest && held.saslUser == OrElse(Lookup(env, SaslUserKey(id)), saved.saslUser)
  }

  /** Agreement between memory and disk is agreement server by server: `.env` holds exactly the secrets of the
      session's servers under their keys, whatever it holds under others. */
  lemma AgreementMeans(app: App)
    requires TidyFile(app.env) && SecretFree(app.toml)
    ensures Agrees(app) <==>
            && app.servers.Keys == app.toml.Keys
            && forall id <- app.servers :: ServerAgrees(EnvOf(app.env), id, app.toml[id], app.servers[id])
  {
    var rebuilt := Rebuilt(app);
    assert rebuilt.Keys == app.toml.Keys;
    forall id | id in app.toml && id in app.servers
      ensures rebuilt[id] == app.servers[id]
              <==> ServerAgrees(EnvOf(app.env), id, app.toml[id], app.servers[id])
    {
      assert app.toml[id] == WithoutSecrets(app.toml[id]);
    }
  }

  /** The two stores of a save change two keys, neither of them another server's or a SASL user's. */
  lemma EnvElsewhere(env: Env, id: string, password: CredUpdate, saslPass: CredUpdate, other: string)
    requires ValidId(id) && ValidId(other)
    ensures var env1 := EnvAfter(EnvAfter(env, PasswordKey(id), password), SaslPassKey(id), saslPass);
            && Lookup(env1, SaslUserKey(other)) == Lookup(env, SaslUserKey(other))
            && (other != id ==> Lookup(env1, PasswordKey(other)) == Lookup(env, PasswordKey(other)))
            && (other != id ==> Lookup(env1, SaslPassKey(other)) == Lookup(env, SaslPassKey(other)))
            && Lookup(env1, PasswordKey(id)) == Lookup(EnvAfter(env, PasswordKey(id), password), PasswordKey(id))
            && Lookup(env1, SaslPassKey(id)) == Lookup(EnvAfter(env, SaslPassKey(id), saslPass), SaslPassKey(id))
  {
    KeysDiffer(other, id);
    KeysDiffer(id, other);
    KeysDiffer(id, id);
  }

  /** What a successful save leaves on disk. */
  lemma SavedFiles(app: App, id: string, server: Server, password: CredUpdate, saslPass: CredUpdate, io: Io)
    requires TidyFile(app.env) && ValidId(id) && OneLineUpdate(password) && OneLineUpdate(saslPass)
    requires Saved(app, id, server, password, saslPass, io).1
    ensures var app1 := Saved(app, id, server, password, saslPass, io).0;
            && app1.servers == app.servers[id := Resolved(app.servers, id, server, password, saslPass)]
            && app1.toml == Stripped(app1.servers) && TidyFile(app1.env)
            && EnvOf(app1.env)
               == EnvAfter(EnvAfter(EnvOf(app.env), PasswordKey(id), password), SaslPassKey(id), saslPass)
  {
    KeysClean(id);
    StoredSecret(app.env, PasswordKey(id), password);
    StoredSecret(StoreSecret(app.env, PasswordKey(id), password), SaslPassKey(id), saslPass);
  }

  // ---------------------------------------------------------------- when a save survives a restart

  /** The line of a SASL user in `.env`, if there is one, names the user that is saved. */
  predicate UserStands(env: Env, id: string, saslUser: Option<string>) {
    SaslUserKey(id) in env ==> saslUser == Some(env[SaslUserKey(id)])
  }

  /** A server new to the session keeps no secret, so `.env` must not hold one under its key. */
  predicate NothingLeft(app: App, id: string, key: string, update: CredUpdate) {
    id !in app.servers && update.Keep? ==> key !in EnvOf(app.env)
  }

  /** What to look at before a save. */
  predicate GoodSave(app: App, id: string, server: Server, password: CredUpdate, saslPass: CredUpdate) {
    && ReadsBack(password) && ReadsBack(saslPass)
    && UserStands(EnvOf(app.env), id, server.saslUser)
    && NothingLeft(app, id, PasswordKey(id), password) && NothingLeft(app, id, SaslPassKey(id), saslPass)
  }

  /** The SASL user of a saved server is the one after a restart exactly when no line of `.env` overrides it. */
  lemma UserAfterSave(app: App, id: string, server: Server, password: CredUpdate, saslPass: CredUpdate, io: Io)
    requires TidyFile(app.env) && ValidId(id) && OneLineUpdate(password) && OneLineUpdate(saslPass)
    requires Saved(app, id, server, password, saslPass, io).1
    ensures var app1 := Saved(app, id, server, password, saslPass, io).0;
            && app1.servers[id].saslUser == server.saslUser
            && Rebuilt(app1)[id].saslUser == OrElse(Lookup(EnvOf(app.env), SaslUserKey(id)), server.saslUser)
            && (Rebuilt(app1)[id].saslUser == server.saslUser <==> UserStands(EnvOf(app.env), id, server.saslUser))
  {
    SavedFiles(app, id, server, password, saslPass, io);
    EnvElsewhere(EnvOf(app.env), id, password, saslPass, id);
  }

  lemma HandReads()
    ensures ParseValue("hand") == "hand" && OneLine("hand")
  {
    assert TrimStart("hand") == "hand" && TrimEnd("hand") == "hand";
    assert TrimCharStart("hand", '"') == "hand" && TrimCharEnd("hand", '"') == "hand";
    assert TrimCharStart("hand", '\'') == "hand" && TrimCharEnd("hand", '\'') == "hand";
  }

  lemma HandEnv(env: Option<string>, key: string)
    requires CleanKey(key) && env == StoreSecret(None, key, Set("hand"))
    ensures TidyFile(env) && EnvOf(env) == map[key := "hand"]
  {
    assert EnvOf(None) == map[] && TidyFile(None);
    HandReads();
    StoredSecret(None, key, Set("hand"));
  }

  /** A user changed from `hand` to `new` on a server whose `.env` line says `hand`: the next start has `hand`. */
  lemma HandWrittenUserWins(server: Server)
    ensures var env := StoreSecret(None, SaslUserKey("id"), Set("hand"));
            var app := StartUp(map["id" := server.(saslUser := None)], env);
            var (app1, ok) := Saved(app, "id", server.(saslUser := Some("new")), Keep, Keep, Io(true, true, true));
            && app.servers["id"].saslUser == Some("hand")
            && ok && app1.servers["id"].saslUser == Some("new") && Rebuilt(app1)["id"].saslUser == Some("hand")
  {
    var env := StoreSecret(None, SaslUserKey("id"), Set("hand"));
    CleanSuffix("id", "_SASL_USER");
    HandEnv(env, SaslUserKey("id"));
    KeepHand(StartUp(map["id" := server.(saslUser := None)], env), server.(saslUser := Some("new")));
  }

  lemma KeepHand(app: App, server: Server)
    requires TidyFile(app.env) && Lookup(EnvOf(app.env), SaslUserKey("id")) == Some("hand")
    ensures var (app1, ok) := Saved(app, "id", server, Keep, Keep, Io(true, true, true));
            ok && app1.servers["id"].saslUser == server.saslUser && Rebuilt(app1)["id"].saslUser == Some("hand")
  {
    UserAfterSave(app, "id", server, Keep, Keep, Io(true, true, true));
  }

  /** One secret of the saved server. */
  lemma SecretComesBack(app: App, id: string, key: string, update: CredUpdate, existing: Option<string>)
    requires OneLineUpdate(update) && (id in app.servers ==> existing == Lookup(EnvOf(app.env), key))
    requires id !in app.servers ==> existing == None
    ensures Lookup(EnvAfter(EnvOf(app.env), key, update), key) == Resolve(update, existing)
            <==> ReadsBack(update) && NothingLeft(app, id, key, update)
  {
  }

  lemma FieldsComeBack(id: string, server: Server, env: Env)
    ensures Credentialed(id, WithoutSecrets(server), env) == server
            <==> Lookup(env, PasswordKey(id)) == server.password && Lookup(env, SaslPassKey(id)) == server.saslPass
                 && UserStands(env, id, server.saslUser)
  {
  }

  /** The saved server itself comes back exactly after a good save, if its values hold no line break. */
  lemma SavedServerComesBack(app: App, id: string, server: Server, password: CredUpdate, saslPass: CredUpdate, io: Io)
    requires Agrees(app) && ValidId(id) && OneLineUpdate(password) && OneLineUpdate(saslPass)
    requires Saved(app, id, server, password, saslPass, io).1
    ensures var app1 := Saved(app, id, server, password, saslPass, io).0;
            Rebuilt(app1)[id] == app1.servers[id] <==> GoodSave(app, id, server, password, saslPass)
  {
    SavedFiles(app, id, server, password, saslPass, io);
    EnvElsewhere(EnvOf(app.env), id, password, saslPass, id);
    if id in app.servers {
      AgreementIsPerServer(app, id);
    }
    var (pw, sasl) := Existing(app.servers, id);
    SecretComesBack(app, id, PasswordKey(id), password, pw);
    SecretComesBack(app, id, SaslPassKey(id), saslPass, sasl);
    var app1 := Saved(app, id, server, password, saslPass, io).0;
    FieldsComeBack(id, app1.servers[id], EnvOf(app1.env));
  }

  lemma OthersComeBack(app: App, id: string, server: Server, password: CredUpdate, saslPass: CredUpdate, io: Io,
                       other: string)
    requires Agrees(app) && ValidId(id) && OneLineUpdate(password) && OneLineUpdate(saslPass)
    requires Saved(app, id, server, password, saslPass, io).1 && other in app.servers && other != id
    ensures var app1 := Saved(app, id, server, password, saslPass, io).0;
            other in Rebuilt(app1) && Rebuilt(app1)[other] == app1.servers[other]
  {
    AgreementIsPerServer(app, other);
    SavedFiles(app, id, server, password, saslPass, io);
    EnvElsewhere(EnvOf(app.env), id, password, saslPass, other);
  }

  /** A value with a line break never comes back. */
  lemma BrokenValueIsLost(app: App, id: string, server: Server, password: CredUpdate, saslPass: CredUpdate, io: Io)
    requires Saved(app, id, server, password, saslPass, io).1
    requires !OneLineUpdate(password) || !OneLineUpdate(saslPass)
    ensures var app1 := Saved(app, id, server, password, saslPass, io).0;
            Rebuilt(app1)[id] != app1.servers[id]
  {
    var app1 := Saved(app, id, server, password, saslPass, io).0;
    LoadedAreLines(app1.env, PasswordKey(id));
    LoadedAreLines(app1.env, SaslPassKey(id));
    assert Rebuilt(app1)[id] == Credentialed(id, WithoutSecrets(app1.servers[id]), EnvOf(app1.env));
  }

  /** From a session that agrees with the disk, a successful save leaves it in agreement exactly when it is
      a good one. */
  lemma SaveKeepsAgreement(app: App, id: string, server: Server, password: CredUpdate, saslPass: CredUpdate, io: Io)
    requires Agrees(app) && ValidId(id) && Saved(app, id, server, password, saslPass, io).1
    ensures var app1 := Saved(app, id, server, password, saslPass, io).0;
            && (Rebuilt(app1) == app1.servers <==> GoodSave(app, id, server, password, saslPass))
            && (GoodSave(app, id, server, password, saslPass) ==> Agrees(app1))
  {
    if OneLineUpdate(password) && OneLineUpdate(saslPass) {
      OneLineSaveKeepsAgreement(app, id, server, password, saslPass, io);
    } else {
      BrokenValueIsLost(app, id, server, password, saslPass, io);
    }
  }

  lemma OneLineSaveKeepsAgreement(app: App, id: string, server: Server, password: CredUpdate, saslPass: CredUpdate,
                                  io: Io)
    requires Agrees(app) && ValidId(id) && OneLineUpdate(password) && OneLineUpdate(saslPass)
    requires Saved(app, id, server, password, saslPass, io).1
    ensures var app1 := Saved(app, id, server, password, saslPass, io).0;
            && (Rebuilt(app1) == app1.servers <==> GoodSave(app, id, server, password, saslPass))
            && TidyFile(app1.env) && SecretFree(app1.toml)
  {
    var app1 := Saved(app, id, server, password, saslPass, io).0;
    SavedFiles(app, id, server, password, saslPass, io);
    SavedServerComesBack(app, id, server, password, saslPass, io);
    AllOthersComeBack(app, id, server, password, saslPass, io);
    SameEverywhere(app1, app.servers, id);
    StrippedIsFree(app, id, app1.servers[id]);
  }

  lemma AllOthersComeBack(app: App, id: string, server: Server, password: CredUpdate, saslPass: CredUpdate, io: Io)
    requires Agrees(app) && ValidId(id) && OneLineUpdate(password) && OneLineUpdate(saslPass)
    requires Saved(app, id, server, password, saslPass, io).1
    ensures var app1 := Saved(app, id, server, password, saslPass, io).0;
            forall other <- app.servers :: other != id ==>
              other in app1.servers && other in Rebuilt(app1) && Rebuilt(app1)[other] == app1.servers[other]
  {
    forall other | other in app.servers && other != id
      ensures var app1 := Saved(app, id, server, password, saslPass, io).0;
              other in app1.servers && other in Rebuilt(app1) && Rebuilt(app1)[other] == app1.servers[other]
    {
      OthersComeBack(app, id, server, password, saslPass, io, other);
    }
  }

  lemma StrippedIsFree(app: App, id: string, server: Server)
    requires Agrees(app) && ValidId(id)
    ensures SecretFree(Stripped(app.servers[id := server]))
  {
    assert Rebuilt(app).Keys == app.toml.Keys;
  }

  /** If all other servers come back, it is this one that decides. */
  lemma SameEverywhere(app: App, before: map<string, Server>, id: string)
    requires app.toml == Stripped(app.servers) && app.servers.Keys == before.Keys + {id}
    requires forall other <- before :: other != id ==> Rebuilt(app)[other] == app.servers[other]
    ensures Rebuilt(app) == app.servers <==> Rebuilt(app)[id] == app.servers[id]
  {
    assert Rebuilt(app).Keys == app.servers.Keys;
  }

  /** What a removal leaves on disk. */
  lemma RemovedFiles(app: App, id: string, io: Io)
    requires TidyFile(app.env) && ValidId(id) && id in app.servers && io.tomlOk
    ensures var app1 := Removed(app, id, io).0;
            && TidyFile(app1.env)
            && EnvOf(app1.env)
               == EnvAfter(EnvAfter(EnvOf(app.env), PasswordKey(id), if io.passwordOk then Remove else Keep),
                           SaslPassKey(id), if io.saslOk then Remove else Keep)
  {
    KeysClean(id);
    var file := if io.passwordOk then RemoveEnvValue(app.env, PasswordKey(id)) else app.env;
    RemoveFile(app.env, PasswordKey(id));
    RemoveFile(file, SaslPassKey(id));
  }

  /** A removal keeps agreement however its writes fare. */
  lemma RemovalKeepsAgreement(app: App, id: string, io: Io)
    requires Agrees(app)
    ensures Agrees(Removed(app, id, io).0)
  {
    if id in app.servers && io.tomlOk {
      AgreementIsPerServer(app, id);
      RemovedFiles(app, id, io);
      var app1 := Removed(app, id, io).0;
      forall other | other in app1.servers
        ensures ValidId(other) && Rebuilt(app1)[other] == app1.servers[other]
      {
        OthersStay(app, id, io, other);
      }
      assert Rebuilt(app1).Keys == app1.servers.Keys;
    }
  }

  lemma OthersStay(app: App, id: string, io: Io, other: string)
    requires Agrees(app) && id in app.servers && io.tomlOk && other in app.servers && other != id
    ensures var app1 := Removed(app, id, io).0;
            ValidId(other) && other in Rebuilt(app1) && Rebuilt(app1)[other] == app1.servers[other]
  {
    AgreementIsPerServer(app, id);
    AgreementIsPerServer(app, other);
    RemovedFiles(app, id, io);
    EnvElsewhere(EnvOf(app.env), id, if io.passwordOk then Remove else Keep, if io.saslOk then Remove else Keep, other);
  }

  /** A secret written by hand into `config.toml` goes with the first save of another server, unless `.env`
      holds one too. */
  lemma HandWrittenSecretIsLost(toml: map<string, Server>, env: Option<string>, id: string, server: Server,
                                password: CredUpdate, saslPass: CredUpdate, io: Io, other: string)
    requires TidyFile(env) && ValidId(id) && ValidId(other) && OneLineUpdate(password) && OneLineUpdate(saslPass)
    requires Saved(StartUp(toml, env), id, server, password, saslPass, io).1 && other in toml && other != id
    ensures var app1 := Saved(StartUp(toml, env), id, server, password, saslPass, io).0;
            Rebuilt(app1)[other] == app1.servers[other]
            <==> (toml[other].password.Some? ==> PasswordKey(other) in EnvOf(env))
                 && (toml[other].saslPass.Some? ==> SaslPassKey(other) in EnvOf(env))
  {
    SavedFiles(StartUp(toml, env), id, server, password, saslPass, io);
    EnvElsewhere(EnvOf(env), id, password, saslPass, other);
  }

  /** The password `hand` stands in `config.toml` alone; another server is saved, and the next start has none. */
  lemma TomlPasswordGone(server: Server)
    ensures var app := StartUp(map["a" := server.(password := Some("hand"))], None);
            var (app1, ok) := Saved(app, "b", server, Keep, Keep, Io(true, true, true));
            && ok && app1.servers["a"].password == Some("hand") && Rebuilt(app1)["a"].password == None
  {
    var app := StartUp(map["a" := server.(password := Some("hand"))], None);
    assert EnvOf(None) == map[] && TidyFile(None);
    assert ValidId("a") && ValidId("b");
    SavedFiles(app, "b", server, Keep, Keep, Io(true, true, true));
  }

  /** A command and how its writes fared. */
  datatype Command =
    | Save(id: string, server: Server, password: CredUpdate, saslPass: CredUpdate, io: Io)
    | Delete(id: string, io: Io)

  function Run(app: App, c: Command): (App, bool) {
    match c
    case Save(id, server, password, saslPass, io) => Saved(app, id, server, password, saslPass, io)
    case Delete(id, io) => Removed(app, id, io)
  }

  function RunAll(app: App, commands: seq<Command>): App {
    if commands == [] then app else Run(RunAll(app, commands[..|commands| - 1]), commands[|commands| - 1]).0
  }

  /** Every save succeeds, and is a good one. */
  ghost predicate Proper(app: App, commands: seq<Command>) {
    commands == []
    || (var (init, last) := (commands[..|commands| - 1], commands[|commands| - 1]);
        && Proper(app, init)
        && (last.Save? ==>
              && ValidId(last.id) && Run(RunAll(app, init), last).1
              && GoodSave(RunAll(app, init), last.id, last.server, last.password, last.saslPass)))
  }

  lemma {:induction false} CommandsKeepAgreement(app: App, commands: seq<Command>)
    requires Agrees(app) && Proper(app, commands)
    ensures Agrees(RunAll(app, commands))
  {
    if commands != [] {
      var (init, last) := (commands[..|commands| - 1], commands[|commands| - 1]);
      CommandsKeepAgreement(app, init);
      match last
      case Save(id, server, password, saslPass, io) =>
        SaveKeepsAgreement(RunAll(app, init), id, server, password, saslPass, io);
      case Delete(id, io) => RemovalKeepsAgreement(RunAll(app, init), id, io);
    }
  }

  /** From any start, after any sequence of such commands, the servers a restart comes up with are those of
      the session. */
  lemma CommandsSurviveRestart(toml: map<string, Server>, env: Option<string>, commands: seq<Command>)
    requires TidyFile(env) && SecretFree(toml) && Proper(StartUp(toml, env), commands)
    ensures var app := RunAll(StartUp(toml, env), commands);
            Rebuilt(app) == app.servers
  {
    CommandsKeepAgreement(StartUp(toml, env), commands);
  }

  /** A new server saved without a password has none in the session, but after a restart it has one exactly
      when its key was in the file already. */
  lemma LeftoverBreaksAgreement(app: App, id: string, server: Server, saslPass: CredUpdate, io: Io)
    requires ValidId(id) && TidyFile(app.env) && OneLineUpdate(saslPass) && id !in app.servers
    requires Saved(app, id, server, Keep, saslPass, io).1
    ensures var app1 := Saved(app, id, server, Keep, saslPass, io).0;
            && app1.servers[id].password == None
            && (Rebuilt(app1)[id].password == None <==> PasswordKey(id) !in EnvOf(app.env))
  {
    SavedFiles(app, id, server, Keep, saslPass, io);
    EnvElsewhere(EnvOf(app.env), id, Keep, saslPass, id);
  }

  /** The web password's line is such a one for a server called `web`. */
  lemma WebCollides()
    ensures ValidId("web") && PasswordKey("web") == "WEB_PASSWORD"
  {
    assert Upper("web") == "WEB";
  }

  /** With `hand` as the web password, a server `web` added without a password has none in the session and
      `hand` after the next start. */
  lemma WebPasswordIsTaken(server: Server)
    ensures var env := StoreSecret(None, "WEB_PASSWORD", Set("hand"));
            var (app1, ok) := Saved(StartUp(map[], env), "web", server, Keep, Keep, Io(true, true, true));
            && ok && app1.servers["web"].password == None && Rebuilt(app1)["web"].password == Some("hand")
  {
    var env := StoreSecret(None, "WEB_PASSWORD", Set("hand"));
    WebCollides();
    KeysClean("web");
    HandEnv(env, "WEB_PASSWORD");
    SavedFiles(StartUp(map[], env), "web", server, Keep, Keep, Io(true, true, true));
  }

  // ---------------------------------------------------------------- what a command leaves, however its writes fare

  /** `config.toml` holds these servers, without their secrets. */
  predicate Configures(toml: map<string, Server>, servers: map<string, Server>) {
    && toml.Keys == servers.Keys
    && forall id <- servers ::
         toml[id] == Server(servers[id].rest, servers[id].saslUser, None, None)
  }

  /** What a secret is afterwards: as given, gone, or what the session had. */
  predicate Becomes(after: Option<string>, update: CredUpdate, before: Option<string>) {
    match update
    case Keep => after == before
    case Set(v) => after == Some(v)
    case Remove => after == None
  }

  /** A save changes the session at once, whatever is written: one server, with the secrets it is given. Then
      `config.toml`, the password and the SASL password are written in turn, as far as the first write that fails. */
  lemma SaveGoesAsFarAsItCan(app: App, id: string, server: Server, password: CredUpdate, saslPass: CredUpdate, io: Io)
    ensures var (app1, ok) := Saved(app, id, server, password, saslPass, io);
            var first := io.tomlOk;
            var second := first && (password.Keep? || io.passwordOk);
            var third := second && (saslPass.Keep? || io.saslOk);
            && (ok <==> third)
            && id in app1.servers && app1.servers - {id} == app.servers - {id}
            && app1.servers[id].rest == server.rest && app1.servers[id].saslUser == server.saslUser
            && Becomes(app1.servers[id].password, password,
                       if id in app.servers then app.servers[id].password else None)
            && Becomes(app1.servers[id].saslPass, saslPass,
                       if id in app.servers then app.servers[id].saslPass else None)
            && (if first then Configures(app1.toml, app1.servers) else app1.toml == app.toml)
            && var env1 := if second then StoreSecret(app.env, PasswordKey(id), password) else app.env;
               app1.env == if third then StoreSecret(env1, SaslPassKey(id), saslPass) else env1
  {
  }

  /** A removal that can save the configuration forgets the server there and in the session, and each of its two
      secrets as far as that write succeeds; any other changes nothing. */
  lemma RemovalGoesAsFarAsItCan(app: App, id: string, io: Io)
    ensures var (app1, ok) := Removed(app, id, io);
            if id in app.servers && io.tomlOk then
              && (ok <==> io.passwordOk && io.saslOk)
              && app1.servers == app.servers - {id} && Configures(app1.toml, app1.servers)
              && var env1 := if io.passwordOk then RemoveEnvValue(app.env, PasswordKey(id)) else app.env;
                 app1.env == if io.saslOk then RemoveEnvValue(env1, SaslPassKey(id)) else env1
            else app1 == app && !ok
  {
  }

  // ---------------------------------------------------------------- secrets as users write them

  /** The id in capital letters. */
  predicate InCapitals(u: string, id: string) {
    |u| == |id| && forall i | 0 <= i < |id| :: u[i] as int == id[i] as int - if 'a' <= id[i] <= 'z' then 32 else 0
  }

  lemma CapitalsAreUpper(u: string, id: string)
    requires InCapitals(u, id)
    ensures u == Upper(id)
  {
    assert forall i | 0 <= i < |id| :: u[i] == Upper(id)[i];
  }

  lemma KeysPlain(id: string)
    requires ValidId(id)
    ensures EnvText.PlainKey(PasswordKey(id)) && EnvText.PlainKey(SaslPassKey(id)) && EnvText.PlainKey(SaslUserKey(id))
  {
    KeysClean(id);
  }

  lemma OneKeyRead(toml: map<string, Server>, id: string, key: string, v: string)
    requires id in toml && ValidId(id) && key in {PasswordKey(id), SaslPassKey(id), SaslUserKey(id)}
    ensures Credentialed(id, toml[id], map[key := v])
         == if key == PasswordKey(id) then toml[id].(password := Some(v))
            else if key == SaslPassKey(id) then toml[id].(saslPass := Some(v)) else toml[id].(saslUser := Some(v))
  {
    KeysDiffer(id, id);
  }

  /** A line `ID_PASSWORD`, `ID_SASL_PASS` or `ID_SASL_USER` with the id in capitals gives the server that password,
      SASL password or SASL user at the next start, quoted or not, and nothing else. */
  lemma WrittenSecretsLoad(toml: map<string, Server>, id: string, u: string, q: string, v: string)
    requires id in toml && ValidId(id) && InCapitals(u, id) && EnvText.IsQuote(q) && EnvText.PlainValue(v)
    ensures StartUp(toml, Some(u + "_PASSWORD" + "=" + q + v + q)).servers[id] == toml[id].(password := Some(v))
    ensures StartUp(toml, Some(u + "_SASL_PASS" + "=" + q + v + q)).servers[id] == toml[id].(saslPass := Some(v))
    ensures StartUp(toml, Some(u + "_SASL_USER" + "=" + q + v + q)).servers[id] == toml[id].(saslUser := Some(v))
  {
    CapitalsAreUpper(u, id);
    WrittenKeyLoads(toml, id, PasswordKey(id), q, v);
    WrittenKeyLoads(toml, id, SaslPassKey(id), q, v);
    WrittenKeyLoads(toml, id, SaslUserKey(id), q, v);
    KeysDiffer(id, id);
  }

  lemma WrittenKeyLoads(toml: map<string, Server>, id: string, key: string, q: string, v: string)
    requires id in toml && ValidId(id) && key in {PasswordKey(id), SaslPassKey(id), SaslUserKey(id)}
    requires EnvText.IsQuote(q) && EnvText.PlainValue(v)
    ensures StartUp(toml, Some(key + "=" + q + v + q)).servers[id]
         == if key == PasswordKey(id) then toml[id].(password := Some(v))
            else if key == SaslPassKey(id) then toml[id].(saslPass := Some(v)) else toml[id].(saslUser := Some(v))
  {
    KeysPlain(id);
    EnvText.QuoteForm(key, q, v);
    OneKeyRead(toml, id, key, v);
  }
}
