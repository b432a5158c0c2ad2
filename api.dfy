/**
 * The Flask API `api.py`: static-file lookup, login and password change over
 * the `usuarios` table, create/update/delete of `ativos_online` rows with
 * their alerts, and the read-only listings and statistics. A request body is
 * a record of `Field`s; a reply is an HTTP status code and a body.
 */
module Api {
  import opened Common
  import opened Storage

  /**
   * The bodies the handlers return: JSON objects, a file, a plain-text
   * string, or Flask's own HTML page for a `NotFound` raised inside a handler.
   */
  datatype Body =
    | Erro(erro: string)
    | Mensagem(mensagem: string)
    | Criado(mensagem: string, id: int)
    | Logado(mensagem: string, id: int, nome: string, email: Option<string>)
    | Arquivo(path: string)
    | Texto(texto: string)
    | FlaskNotFound

  datatype Reply = Reply(code: int, body: Body)

  // ---------------------------------------------------------------- static files

  /** The folders `serve_static_files` tries, in order, relative to the project root. */
  const StaticDirs: seq<string> := ["", "templates/", "login/"]

  /**
   * `serve_static_files`: the first of root, `templates/` and `login/` that
   * holds `filename` serves it; otherwise 404. `isFile` is `os.path.isfile`
   * on paths relative to the project root.
   */
  function ServeStatic(filename: string, isFile: string -> bool): (r: Reply)
    ensures r.code == 200 || r == Reply(404, Texto("Arquivo não encontrado."))
    ensures r.code == 200 <==> exists d :: d in StaticDirs && isFile(d + filename)
    ensures r.code == 200 ==> exists j :: (0 <= j < |StaticDirs| && r.body == Arquivo(StaticDirs[j] + filename)
      && isFile(StaticDirs[j] + filename) && forall i :: 0 <= i < j ==> !isFile(StaticDirs[i] + filename))
  {
    if isFile(filename) then
      assert StaticDirs[0] + filename == filename;
      Reply(200, Arquivo(filename))
    else if isFile("templates/" + filename) then
      assert StaticDirs[1] + filename == "templates/" + filename;
      Reply(200, Arquivo("templates/" + filename))
    else if isFile("login/" + filename) then
      assert StaticDirs[2] + filename == "login/" + filename;
      Reply(200, Arquivo("login/" + filename))
    else
      assert "" + filename == filename;
      Reply(404, Texto("Arquivo não encontrado."))
  }

  /** A file present in the root shadows the same name under `templates/` and `login/`. */
  lemma RootShadowsTemplates(filename: string, isFile: string -> bool)
    requires isFile(filename)
    ensures ServeStatic(filename, isFile) == Reply(200, Arquivo(filename))
  {
  }

  /**
   * `serve_index`: `/` serves `login/login.html`, or 404 when it is missing.
   * A missing file makes `send_from_directory` raise werkzeug's `NotFound`,
   * which the `except FileNotFoundError` does not catch, so the reply is
   * Flask's default 404 page and the handler's own error text is never sent.
   */
  function ServeIndex(isFile: string -> bool): (r: Reply)
    ensures r.code == 200 <==> isFile("login/login.html")
    ensures r.code == 200 ==> r.body == Arquivo("login/login.html")
    ensures r.code != 200 ==> r == Reply(404, FlaskNotFound)
  {
    if isFile("login/login.html") then Reply(200, Arquivo("login/login.html"))
    else Reply(404, FlaskNotFound)
  }

  // ---------------------------------------------------------------- login

  /** `dados.get(k).strip() if dados.get(k) else None`, then `not x`: the stripped text when it is non-empty. */
  function Credential(f: Field): (r: Option<string>)
    ensures r.Some? <==> Truthy(f) && Strip(f.s) != ""
    ensures r.Some? ==> r.value == Strip(f.s) && r.value != ""
  {
    if Truthy(f) && Strip(f.s) != "" then Some(Strip(f.s)) else None
  }

  /** `WHERE email = ?`. */
  function HasEmail(e: string): User -> bool {
    (u: User) => u.email == Some(e)
  }

  const WrongCredentials := Reply(401, Erro("Email ou senha incorretos"))

  /**
   * `login`: both credentials are required; the (lowest-id) user with that
   * email must have that password, both compared stripped. An unknown email
   * and a wrong password get the same reply.
   */
  function Login(users: Table<User>, email: Field, senha: Field): (r: Reply)
    requires users.Valid()
    ensures r.code == 200 || r.code == 400 || r == WrongCredentials
    ensures r.code == 400 <==> Credential(email).None? || Credential(senha).None?
    ensures r.code == 200 ==> (r.body.Logado? && r.body.id in users.rows
      && users.rows[r.body.id].email == Some(Credential(email).value)
      && Strip(users.rows[r.body.id].senha) == Credential(senha).value
      && r.body.nome == users.rows[r.body.id].nome && r.body.email == users.rows[r.body.id].email)
    ensures r.code == 200 ==> forall j :: j in users.rows && j < r.body.id ==> users.rows[j].email != Some(Credential(email).value)
  {
    var e := Credential(email);
    var s := Credential(senha);
    if e.None? || s.None? then Reply(400, Erro("Email e senha são obrigatórios"))
    else
      var found := users.LowestMatch(HasEmail(e.value));
      if found.None? then WrongCredentials
      else
        var u := users.rows[found.value];
        if Strip(u.senha) != s.value then WrongCredentials
        else Reply(200, Logado("Login bem-sucedido!", found.value, u.nome, u.email))
  }

  /** The first user registered under the email, with that password, logs in. */
  lemma LoginSucceedsFor(users: Table<User>, email: Field, senha: Field, id: int)
    requires users.Valid() && Credential(email).Some? && Credential(senha).Some?
    requires id in users.rows && users.rows[id].email == Some(Credential(email).value)
    requires forall j :: j in users.rows && j < id ==> users.rows[j].email != Some(Credential(email).value)
    requires Strip(users.rows[id].senha) == Credential(senha).value
    ensures Login(users, email, senha) == Reply(200, Logado("Login bem-sucedido!", id, users.rows[id].nome, users.rows[id].email))
  {
    FirstWithEmail(users, Credential(email).value, id);
  }

  /** `SELECT ... WHERE email = ?` finds the first user registered under the email. */
  lemma FirstWithEmail(users: Table<User>, e: string, id: int)
    requires users.Valid() && id in users.rows && users.rows[id].email == Some(e)
    requires forall j :: j in users.rows && j < id ==> users.rows[j].email != Some(e)
    ensures users.LowestMatch(HasEmail(e)) == Some(id)
  {
    assert HasEmail(e)(users.rows[id]);
  }

  /** An email nobody is registered under and a wrong password are indistinguishable to the caller. */
  lemma UnknownEmailLikeWrongPassword(users: Table<User>, email: Field, senha: Field, other: Field)
    requires users.Valid() && Credential(email).Some? && Credential(senha).Some? && Credential(other).Some?
    requires forall id :: id in users.rows ==> users.rows[id].email != Some(Credential(email).value)
    ensures Login(users, email, senha) == WrongCredentials
    ensures Login(users, email, other) == WrongCredentials
  {
    var e := Credential(email).value;
    assert forall id :: id in users.rows ==> !HasEmail(e)(users.rows[id]);
  }

  // ---------------------------------------------------------------- password change

  /** The users table and the reply after a request. */
  datatype UsersOutcome = UsersOutcome(reply: Reply, usuarios: Table<User>)

  /** Python truthiness of the `id` member: missing, null and 0 are falsy. */
  predicate TruthyId(id: Option<int>) {
    id.Some? && id.value != 0
  }

  /**
   * `trocar_senha`: all three members are required; the user must exist and
   * the stored password, stripped, must equal the current one, stripped;
   * then the new password is stored stripped.
   */
  function TrocarSenhaSpec(users: Table<User>, id: Option<int>, atual: Field, nova: Field): (o: UsersOutcome)
    requires users.Valid()
    ensures o.reply.code in {200, 400, 401, 404}
    ensures o.reply.code == 400 <==> !TruthyId(id) || !Truthy(atual) || !Truthy(nova)
    ensures o.reply.code == 404 <==> TruthyId(id) && Truthy(atual) && Truthy(nova) && id.value !in users.rows
    ensures o.reply.code == 200 <==> (TruthyId(id) && Truthy(atual) && Truthy(nova) && id.value in users.rows
      && Strip(users.rows[id.value].senha) == Strip(atual.s))
    ensures o.reply.code != 200 ==> o.usuarios == users
    ensures o.reply.code == 200 ==> o.usuarios == users.(rows := users.rows[id.value :=
      users.rows[id.value].(senha := Strip(nova.s))])
  {
    if !TruthyId(id) || !Truthy(atual) || !Truthy(nova) then
      UsersOutcome(Reply(400, Erro("Todos os campos são obrigatórios.")), users)
    else if id.value !in users.rows then
      UsersOutcome(Reply(404, Erro("Usuário não encontrado.")), users)
    else if Strip(users.rows[id.value].senha) != Strip(atual.s) then
      UsersOutcome(Reply(401, Erro("A senha atual está incorreta.")), users)
    else
      UsersOutcome(Reply(200, Mensagem("Senha alterada com sucesso!")),
        users.(rows := users.rows[id.value := users.rows[id.value].(senha := Strip(nova.s))]))
  }

  method TrocarSenha(db: Database, id: Option<int>, atual: Field, nova: Field) returns (r: Reply)
    requires db.Valid()
    modifies db`usuarios
    ensures db.Valid()
    ensures UsersOutcome(r, db.usuarios) == TrocarSenhaSpec(old(db.usuarios), id, atual, nova)
  {
    if !TruthyId(id) || !Truthy(atual) || !Truthy(nova) {
      return Reply(400, Erro("Todos os campos são obrigatórios."));
    }
    var idUsuario := id.value;
    if idUsuario !in db.usuarios.rows {
      return Reply(404, Erro("Usuário não encontrado."));
    }
    var senhaNoBanco := Strip(db.usuarios.rows[idUsuario].senha);
    if senhaNoBanco != Strip(atual.s) {
      return Reply(401, Erro("A senha atual está incorreta."));
    }
    db.usuarios := db.usuarios.(rows := db.usuarios.rows[idUsuario := db.usuarios.rows[idUsuario].(senha := Strip(nova.s))]);
    r := Reply(200, Mensagem("Senha alterada com sucesso!"));
  }

  /** Rewriting a password does not change which user an email finds. */
  lemma LookupSurvivesPasswordChange(users: Table<User>, id: int, e: string, senha: string)
    requires users.Valid() && users.LowestMatch(HasEmail(e)) == Some(id)
    ensures users.(rows := users.rows[id := users.rows[id].(senha := senha)]).LowestMatch(HasEmail(e)) == Some(id)
  {
    var after := users.(rows := users.rows[id := users.rows[id].(senha := senha)]);
    forall j | j in after.rows && j < id ensures after.rows[j].email != Some(e) {
      assert !HasEmail(e)(users.rows[j]);
    }
    FirstWithEmail(after, e, id);
  }

  /** Writing a stripped, non-empty password lets the user that email finds log in with it. */
  lemma LoginAfterPasswordWrite(users: Table<User>, id: int, nova: Field, email: Field)
    requires users.Valid() && Credential(email).Some? && Credential(nova).Some?
    requires users.LowestMatch(HasEmail(Credential(email).value)) == Some(id)
    ensures Login(users.(rows := users.rows[id := users.rows[id].(senha := Strip(nova.s))]), email, nova).code == 200
  {
    LookupSurvivesPasswordChange(users, id, Credential(email).value, Strip(nova.s));
    StripIdempotent(nova.s);
  }

  /** Writing a password makes any other password, as the user that email finds, a wrong one. */
  lemma LoginRefusedAfterPasswordWrite(users: Table<User>, id: int, nova: Field, email: Field, other: Field)
    requires users.Valid() && Credential(email).Some? && Credential(other).Some? && nova.Str?
    requires users.LowestMatch(HasEmail(Credential(email).value)) == Some(id)
    requires Strip(other.s) != Strip(nova.s)
    ensures Login(users.(rows := users.rows[id := users.rows[id].(senha := Strip(nova.s))]), email, other) == WrongCredentials
  {
    LookupSurvivesPasswordChange(users, id, Credential(email).value, Strip(nova.s));
    StripIdempotent(nova.s);
  }

  /** After a password change the user logs in with the new password. */
  lemma ChangedPasswordLogsIn(users: Table<User>, id: int, atual: Field, nova: Field, email: Field)
    requires users.Valid() && TrocarSenhaSpec(users, Some(id), atual, nova).reply.code == 200
    requires Credential(email).Some? && Credential(nova).Some?
    requires users.LowestMatch(HasEmail(Credential(email).value)) == Some(id)
    ensures Login(TrocarSenhaSpec(users, Some(id), atual, nova).usuarios, email, nova).code == 200
  {
    LoginAfterPasswordWrite(users, id, nova, email);
  }

  /** After a password change the old password, if it differs, is refused like a wrong one. */
  lemma OldPasswordRefused(users: Table<User>, id: int, atual: Field, nova: Field, email: Field)
    requires users.Valid() && TrocarSenhaSpec(users, Some(id), atual, nova).reply.code == 200
    requires Credential(email).Some? && Credential(atual).Some? && Strip(atual.s) != Strip(nova.s)
    requires users.LowestMatch(HasEmail(Credential(email).value)) == Some(id)
    ensures Login(TrocarSenhaSpec(users, Some(id), atual, nova).usuarios, email, atual) == WrongCredentials
  {
    LoginRefusedAfterPasswordWrite(users, id, nova, email, atual);
  }

  /** A new password made only of spaces is stored as "", and that user can then never log in. */
  lemma BlankNewPasswordLocksOut(users: Table<User>, id: int, atual: Field, nova: Field, email: Field, senha: Field)
    requires users.Valid() && TrocarSenhaSpec(users, Some(id), atual, nova).reply.code == 200
    requires Strip(nova.s) == ""
    ensures TrocarSenhaSpec(users, Some(id), atual, nova).usuarios.rows[id].senha == ""
    ensures var r := Login(TrocarSenhaSpec(users, Some(id), atual, nova).usuarios, email, senha);
      r.code == 200 ==> r.body.id != id
  {
    var after := TrocarSenhaSpec(users, Some(id), atual, nova).usuarios;
    assert after.rows[id].senha == "";
  }

  // ---------------------------------------------------------------- assets

  /** The members of an asset request body. */
  datatype AssetRequest = AssetRequest(nome: Field, ip: Field, mac: Field, status: Field, condicao: Field, tipo: Field)

  /** The asset table, the reply, and the alerts a request logged. */
  datatype AssetsOutcome = AssetsOutcome(reply: Reply, ativos: Table<Asset>, logged: seq<Alert>)

  /** The row `add_ativo` inserts: absent keys take their defaults, null members stay NULL. */
  function NewAsset(req: AssetRequest, now: string): (a: Asset)
    requires Truthy(req.nome)
    ensures a.nome == req.nome.s && a.dataInicio == Some(now) && a.tempoDeUso == None
    ensures a.ip == Column(req.ip) && a.mac == Column(req.mac)
    ensures req.tipo.Absent? ==> a.tipo == Some("Outros")
    ensures req.status.Absent? ==> a.status == Some("Pendente")
    ensures req.condicao.Absent? ==> a.condicao == Some("Desconhecida")
    ensures !req.tipo.Absent? ==> a.tipo == Column(req.tipo)
  {
    Asset(req.nome.s, Column(req.ip), Column(req.mac), ColumnOr(req.status, "Pendente"),
      ColumnOr(req.condicao, "Desconhecida"), Some(now), ColumnOr(req.tipo, "Outros"), None)
  }

  /** The alert `add_ativo` logs for the new row. */
  function AdditionAlert(a: Asset, id: int, now: string): (r: Alert)
    ensures r.dataHora == now && r.tipoAlerta == "Adição"
    ensures StartsWith(r.mensagem, "Novo ativo entrou na rede: " + a.nome + " (")
    ensures EndsWith(r.mensagem, ", ID: " + IntToString(id) + ")")
    ensures Framed(r.mensagem, "Novo ativo entrou na rede: " + a.nome + " (",
      PyStr(a.tipo) + ") (IP: " + PyStr(a.ip), ", ID: " + IntToString(id) + ")")
  {
    var head := "Novo ativo entrou na rede: " + a.nome + " (";
    var mid := PyStr(a.tipo) + ") (IP: " + PyStr(a.ip);
    var tail := ", ID: " + IntToString(id) + ")";
    ConcatEnds(head, mid, tail);
    FramedIff(head + mid + tail, head, mid, tail);
    Alert(now, "Adição", head + mid + tail)
  }

  /** The alert `delete_ativo` logs for the removed row. */
  function RemovalAlert(a: Asset, id: int, now: string): (r: Alert)
    ensures r.dataHora == now && r.tipoAlerta == "Remoção"
    ensures StartsWith(r.mensagem, "Ativo saiu da rede: " + a.nome + " (")
    ensures EndsWith(r.mensagem, ", ID: " + IntToString(id) + ")")
    ensures Framed(r.mensagem, "Ativo saiu da rede: " + a.nome + " (",
      PyStr(a.tipo) + ") (IP: " + PyStr(a.ip), ", ID: " + IntToString(id) + ")")
  {
    var head := "Ativo saiu da rede: " + a.nome + " (";
    var mid := PyStr(a.tipo) + ") (IP: " + PyStr(a.ip);
    var tail := ", ID: " + IntToString(id) + ")";
    ConcatEnds(head, mid, tail);
    FramedIff(head + mid + tail, head, mid, tail);
    Alert(now, "Remoção", head + mid + tail)
  }

  /** `add_ativo`: a falsy `nome` is refused; otherwise one row is inserted and one alert logged. */
  function AddAtivoSpec(t: Table<Asset>, req: AssetRequest, now: string): (o: AssetsOutcome)
    requires t.Valid()
    ensures o.ativos.Valid()
    ensures !Truthy(req.nome) <==> o.reply.code == 400
    ensures !Truthy(req.nome) ==> o.ativos == t && o.logged == []
    ensures Truthy(req.nome) ==> (o.reply == Reply(201, Criado("Ativo adicionado e alerta registrado!", t.nextId))
      && o.ativos.rows == t.rows[t.nextId := NewAsset(req, now)] && t.nextId !in t.rows
      && |o.ativos.rows| == |t.rows| + 1 && o.logged == [AdditionAlert(NewAsset(req, now), t.nextId, now)])
  {
    if !Truthy(req.nome) then AssetsOutcome(Reply(400, Erro("O campo 'nome' é obrigatório")), t, [])
    else
      var a := NewAsset(req, now);
      AssetsOutcome(Reply(201, Criado("Ativo adicionado e alerta registrado!", t.nextId)), t.Insert(a),
        [AdditionAlert(a, t.nextId, now)])
  }

  method AddAtivo(db: Database, req: AssetRequest, now: string) returns (r: Reply)
    requires db.Valid()
    modifies db`ativos, db`alertas
    ensures db.Valid()
    ensures var o := AddAtivoSpec(old(db.ativos), req, now);
      r == o.reply && db.ativos == o.ativos && db.alertas == old(db.alertas) + o.logged
  {
    if !Truthy(req.nome) {
      return Reply(400, Erro("O campo 'nome' é obrigatório"));
    }
    var ativo := Asset(req.nome.s, Column(req.ip), Column(req.mac), ColumnOr(req.status, "Pendente"),
      ColumnOr(req.condicao, "Desconhecida"), Some(now), ColumnOr(req.tipo, "Outros"), None);
    var novoId := db.ativos.nextId;
    db.ativos := db.ativos.Insert(ativo);
    var alerta := AdditionAlert(ativo, novoId, now);
    db.RegisterAlert(alerta.dataHora, alerta.tipoAlerta, alerta.mensagem);
    r := Reply(201, Criado("Ativo adicionado e alerta registrado!", novoId));
  }

  /** The members `update_ativo` requires: falsy `nome`, `status` or `condicao` is refused. */
  predicate UpdateValid(req: AssetRequest)
    ensures UpdateValid(req) <==> Present(Column(req.nome)) && Present(Column(req.status)) && Present(Column(req.condicao))
  {
    Truthy(req.nome) && Truthy(req.status) && Truthy(req.condicao)
  }

  /** A column assignment of the UPDATE statement. */
  datatype Assignment = SetNome(nome: string) | SetIp(ip: Option<string>) | SetMac(mac: Option<string>)
    | SetStatus(status: Option<string>) | SetCondicao(condicao: Option<string>) | SetTipo(tipo: Option<string>)

  function Assign(a: Asset, s: Assignment): Asset {
    match s
    case SetNome(v) => a.(nome := v)
    case SetIp(v) => a.(ip := v)
    case SetMac(v) => a.(mac := v)
    case SetStatus(v) => a.(status := v)
    case SetCondicao(v) => a.(condicao := v)
    case SetTipo(v) => a.(tipo := v)
  }

  /** Running the SET list on a row, left to right. */
  function AssignAll(a: Asset, sets: seq<Assignment>): Asset
    decreases |sets|
  {
    if sets == [] then a else AssignAll(Assign(a, sets[0]), sets[1..])
  }

  /** The row after `update_ativo`: five columns always, `tipo` only when truthy. */
  function UpdatedAsset(a: Asset, req: AssetRequest): (r: Asset)
    requires UpdateValid(req)
    ensures r.nome == req.nome.s && r.status == Some(req.status.s) && r.condicao == Some(req.condicao.s)
    ensures r.ip == Column(req.ip) && r.mac == Column(req.mac)
    ensures r.tipo == if Truthy(req.tipo) then Some(req.tipo.s) else a.tipo
    ensures r.dataInicio == a.dataInicio && r.tempoDeUso == a.tempoDeUso
  {
    var r := a.(nome := req.nome.s, ip := Column(req.ip), mac := Column(req.mac),
      status := Column(req.status), condicao := Column(req.condicao));
    if Truthy(req.tipo) then r.(tipo := Column(req.tipo)) else r
  }

  /** Updating a row twice with the same request is the same as once. */
  lemma UpdateIdempotent(a: Asset, req: AssetRequest)
    requires UpdateValid(req)
    ensures UpdatedAsset(UpdatedAsset(a, req), req) == UpdatedAsset(a, req)
  {
  }

  /** `update_ativo`: validation first (400), then a missing row (404), else the row is rewritten. */
  function UpdateAtivoSpec(t: Table<Asset>, id: int, req: AssetRequest): (o: AssetsOutcome)
    requires t.Valid()
    ensures o.ativos.Valid() && o.logged == []
    ensures o.reply.code == 400 <==> !UpdateValid(req)
    ensures o.reply.code == 404 <==> UpdateValid(req) && id !in t.rows
    ensures o.reply.code != 200 ==> o.ativos == t
    ensures o.reply.code == 200 ==> (id in t.rows && UpdateValid(req)
      && o.ativos == t.(rows := t.rows[id := UpdatedAsset(t.rows[id], req)]))
  {
    if !UpdateValid(req) then AssetsOutcome(Reply(400, Erro("Nome, status e condição são campos obrigatórios")), t, [])
    else if id !in t.rows then AssetsOutcome(Reply(404, Erro("Ativo não encontrado")), t, [])
    else AssetsOutcome(Reply(200, Mensagem("Ativo atualizado com sucesso!")),
      t.(rows := t.rows[id := UpdatedAsset(t.rows[id], req)]), [])
  }

  /** The SET list `update_ativo` builds: five assignments, then `tipo` when truthy. */
  method BuildAssignments(req: AssetRequest) returns (sets: seq<Assignment>)
    requires UpdateValid(req)
    ensures forall a: Asset :: AssignAll(a, sets) == UpdatedAsset(a, req)
  {
    sets := [SetNome(req.nome.s), SetIp(Column(req.ip)), SetMac(Column(req.mac)),
      SetStatus(Column(req.status)), SetCondicao(Column(req.condicao))];
    if Truthy(req.tipo) {
      sets := sets + [SetTipo(Column(req.tipo))];
    }
    forall a: Asset ensures AssignAll(a, sets) == UpdatedAsset(a, req) {
      AssignAllUnfold(a, sets);
    }
  }

  /** One assignment, then the rest of the list. */
  lemma AssignAllStep(a: Asset, sets: seq<Assignment>, i: nat)
    requires i < |sets|
    ensures AssignAll(a, sets[i..]) == AssignAll(Assign(a, sets[i]), sets[i + 1..])
  {
    assert sets[i..][0] == sets[i] && sets[i..][1..] == sets[i + 1..];
  }

  lemma AssignAllUnfold(a: Asset, sets: seq<Assignment>)
    requires 5 <= |sets| <= 6
    ensures AssignAll(a, sets) == var b := Assign(Assign(Assign(Assign(Assign(a, sets[0]), sets[1]), sets[2]), sets[3]), sets[4]);
      if |sets| == 6 then Assign(b, sets[5]) else b
  {
    assert sets[0..] == sets;
    var b1 := Assign(a, sets[0]);
    AssignAllStep(a, sets, 0);
    var b2 := Assign(b1, sets[1]);
    AssignAllStep(b1, sets, 1);
    var b3 := Assign(b2, sets[2]);
    AssignAllStep(b2, sets, 2);
    var b4 := Assign(b3, sets[3]);
    AssignAllStep(b3, sets, 3);
    var b5 := Assign(b4, sets[4]);
    AssignAllStep(b4, sets, 4);
    if |sets| == 6 {
      AssignAllStep(b5, sets, 5);
      assert sets[6..] == [];
    } else {
      assert sets[5..] == [];
    }
  }

  method UpdateAtivo(db: Database, id: int, req: AssetRequest) returns (r: Reply)
    requires db.Valid()
    modifies db`ativos
    ensures db.Valid()
    ensures var o := UpdateAtivoSpec(old(db.ativos), id, req); r == o.reply && db.ativos == o.ativos
  {
    if !UpdateValid(req) {
      return Reply(400, Erro("Nome, status e condição são campos obrigatórios"));
    }
    var sets := BuildAssignments(req);
    if id !in db.ativos.rows {
      return Reply(404, Erro("Ativo não encontrado"));
    }
    db.ativos := db.ativos.(rows := db.ativos.rows[id := AssignAll(db.ativos.rows[id], sets)]);
    r := Reply(200, Mensagem("Ativo atualizado com sucesso!"));
  }

  /** `delete_ativo`: 404 for a missing row; otherwise the row goes and one alert is logged. */
  function DeleteAtivoSpec(t: Table<Asset>, id: int, now: string): (o: AssetsOutcome)
    requires t.Valid()
    ensures o.ativos.Valid()
    ensures o.reply.code == 404 <==> id !in t.rows
    ensures id !in t.rows ==> o.ativos == t && o.logged == []
    ensures id in t.rows ==> (o.reply.code == 200 && o.ativos == t.Remove(id)
      && |o.ativos.rows| == |t.rows| - 1 && o.logged == [RemovalAlert(t.rows[id], id, now)])
  {
    if id !in t.rows then AssetsOutcome(Reply(404, Erro("Ativo não encontrado")), t, [])
    else AssetsOutcome(Reply(200, Mensagem("Ativo deletado e alerta registrado!")), t.Remove(id),
      [RemovalAlert(t.rows[id], id, now)])
  }

  method DeleteAtivo(db: Database, id: int, now: string) returns (r: Reply)
    requires db.Valid()
    modifies db`ativos, db`alertas
    ensures db.Valid()
    ensures var o := DeleteAtivoSpec(old(db.ativos), id, now);
      r == o.reply && db.ativos == o.ativos && db.alertas == old(db.alertas) + o.logged
  {
    if id !in db.ativos.rows {
      return Reply(404, Erro("Ativo não encontrado"));
    }
    var ativo := db.ativos.rows[id];
    db.ativos := db.ativos.Remove(id);
    var alerta := RemovalAlert(ativo, id, now);
    db.RegisterAlert(alerta.dataHora, alerta.tipoAlerta, alerta.mensagem);
    r := Reply(200, Mensagem("Ativo deletado e alerta registrado!"));
  }

  /** Deleting the row just added restores the rows; the counter stays advanced and both alerts remain. */
  lemma AddThenDeleteRestoresRows(t: Table<Asset>, req: AssetRequest, now: string, later: string)
    requires t.Valid() && Truthy(req.nome)
    ensures var added := AddAtivoSpec(t, req, now);
      var removed := DeleteAtivoSpec(added.ativos, t.nextId, later);
      removed.reply.code == 200 && removed.ativos.rows == t.rows && removed.ativos.nextId == t.nextId + 1
      && added.logged + removed.logged == [AdditionAlert(NewAsset(req, now), t.nextId, now), RemovalAlert(NewAsset(req, now), t.nextId, later)]
  {
    var added := AddAtivoSpec(t, req, now);
    assert added.ativos.rows - {t.nextId} == t.rows;
  }

  /** A deleted id is never handed out again: the next insert takes a fresh one. */
  lemma DeletedIdNotReused(t: Table<Asset>, id: int, req: AssetRequest, now: string)
    requires t.Valid() && id in t.rows && Truthy(req.nome)
    ensures var d := DeleteAtivoSpec(t, id, now).ativos;
      AddAtivoSpec(d, req, now).reply.body.id != id
  {
  }

  // ---------------------------------------------------------------- read routes

  /** `SELECT * FROM alertas ORDER BY id DESC`: ids are positions plus one, newest first. */
  function AlertasDesc(alertas: seq<Alert>): (r: seq<(int, Alert)>)
    ensures |r| == |alertas|
    ensures forall k :: 0 <= k < |r| ==> r[k] == (|alertas| - k, alertas[|alertas| - 1 - k])
  {
    if alertas == [] then []
    else [(|alertas|, alertas[|alertas| - 1])] + AlertasDesc(alertas[..|alertas| - 1])
  }

  /** The listing is newest first: ids strictly decrease. */
  lemma AlertasNewestFirst(alertas: seq<Alert>)
    ensures var r := AlertasDesc(alertas);
      forall k, j :: 0 <= k < j < |r| ==> r[k].0 > r[j].0
  {
  }

  /** The alert just logged heads the listing. */
  lemma NewAlertFirst(alertas: seq<Alert>, a: Alert)
    ensures AlertasDesc(alertas + [a])[0] == (|alertas| + 1, a)
  {
  }

  predicate IsOnline(e: (int, Asset)) {
    e.1.status == Some("Online")
  }

  predicate IsOffline(e: (int, Asset)) {
    e.1.status == Some("Offline")
  }

  /** `SELECT * FROM ativos_online WHERE status = 'Online'`, in id order. */
  function AtivosOnline(t: Table<Asset>): (r: seq<(int, Asset)>)
    requires t.Valid()
    ensures forall id :: id in t.rows && t.rows[id].status == Some("Online") ==> (id, t.rows[id]) in r
    ensures forall e :: e in r ==> e.0 in t.rows && t.rows[e.0] == e.1 && e.1.status == Some("Online")
    ensures SubseqOf(r, t.Listing())
  {
    FilterIsSubseq(t.Listing(), IsOnline);
    Filter(t.Listing(), IsOnline)
  }

  /** The four counters of `obter_estatisticas`. */
  datatype Stats = Stats(totalAtivos: nat, ativosOnline: nat, ativosOffline: nat, totalUsuarios: nat)

  /** `obter_estatisticas`: `COUNT(*)` over the table, over its Online rows and its Offline rows, and over users. */
  function Estatisticas(ativos: Table<Asset>, usuarios: Table<User>): (s: Stats)
    requires ativos.Valid() && usuarios.Valid()
    ensures s.totalAtivos == |ativos.rows| && s.totalUsuarios == |usuarios.rows|
    ensures s.ativosOnline + s.ativosOffline <= s.totalAtivos
    ensures s.ativosOnline == |AtivosOnline(ativos)|
    ensures s.ativosOffline == Count(ativos.Listing(), IsOffline)
  {
    var rows := ativos.Listing();
    ativos.ListingLength();
    usuarios.ListingLength();
    CountDisjoint(rows, IsOnline, IsOffline);
    CountIsFilterLength(rows, IsOnline);
    Stats(|rows|, Count(rows, IsOnline), Count(rows, IsOffline), |usuarios.Listing()|)
  }

  /** A freshly added asset with the default status counts in neither Online nor Offline. */
  lemma DefaultStatusCountsInNeither(req: AssetRequest, now: string, id: int)
    requires Truthy(req.nome) && req.status.Absent?
    ensures !IsOnline((id, NewAsset(req, now))) && !IsOffline((id, NewAsset(req, now)))
  {
  }

  // ---------------------------------------------------------------- type breakdown

  /** `COALESCE(tipo, 'Não Classificado')`. */
  function TipoLabel(a: Asset): (l: string)
    ensures a.tipo.Some? ==> l == a.tipo.value
  {
    if a.tipo.Some? then a.tipo.value else "Não Classificado"
  }

  function HasLabel(l: string): ((int, Asset)) -> bool {
    (e: (int, Asset)) => TipoLabel(e.1) == l
  }

  /** The distinct labels of the fetched rows, in order of first appearance. */
  function Labels(fetched: seq<(int, Asset)>): (r: seq<string>)
    ensures forall i, j :: 0 <= i < j < |r| ==> r[i] != r[j]
    ensures forall l :: l in r <==> exists k :: 0 <= k < |fetched| && TipoLabel(fetched[k].1) == l
  {
    if fetched == [] then []
    else
      var init := fetched[..|fetched| - 1];
      var l := TipoLabel(fetched[|fetched| - 1].1);
      var r := Labels(init);
      assert forall k :: 0 <= k < |init| ==> init[k] == fetched[k];
      if l in r then r else r + [l]
  }

  /** The keys of a list of groups are pairwise distinct. */
  predicate DistinctKeys(s: seq<(string, nat)>) {
    forall i, j :: 0 <= i < j < |s| ==> s[i].0 != s[j].0
  }

  /** Counts never increase along the list: `ORDER BY contagem DESC`. */
  predicate CountsDescending(s: seq<(string, nat)>) {
    forall i, j :: 0 <= i < j < |s| ==> s[i].1 >= s[j].1
  }

  /** Each label with the number of fetched rows that carry it. */
  function GroupCounts(labels: seq<string>, fetched: seq<(int, Asset)>): (r: seq<(string, nat)>)
    ensures |r| == |labels|
    ensures forall k :: 0 <= k < |r| ==> r[k] == (labels[k], Count(fetched, HasLabel(labels[k])))
  {
    if labels == [] then []
    else [(labels[0], Count(fetched, HasLabel(labels[0])))] + GroupCounts(labels[1..], fetched)
  }

  /** Place `x` after every group counting at least as many rows. */
  function InsertByCount(x: (string, nat), s: seq<(string, nat)>): (r: seq<(string, nat)>)
    requires CountsDescending(s)
    ensures CountsDescending(r)
    ensures |r| == |s| + 1 && forall y :: y in r <==> y == x || y in s
  {
    if s == [] || s[0].1 < x.1 then
      assert forall y :: y in s ==> y.1 <= s[0].1;
      [x] + s
    else
      var rest := InsertByCount(x, s[1..]);
      assert forall y :: y in s[1..] ==> y.1 <= s[0].1;
      assert forall y :: y in rest ==> y.1 <= s[0].1;
      assert forall y :: y in s <==> y == s[0] || y in s[1..];
      [s[0]] + rest
  }

  /** Inserting a group under a new key keeps the keys distinct. */
  lemma {:induction false} InsertKeepsKeysDistinct(x: (string, nat), s: seq<(string, nat)>)
    requires CountsDescending(s) && DistinctKeys(s) && x.0 !in KeysOf(s)
    ensures DistinctKeys(InsertByCount(x, s))
  {
    if s == [] || s[0].1 < x.1 {
      assert InsertByCount(x, s) == [x] + s;
    } else {
      KeysOfTail(s);
      assert x.0 !in KeysOf(s[1..]) by {
        assert forall y :: y in s[1..] ==> y in s;
      }
      InsertKeepsKeysDistinct(x, s[1..]);
      var rest := InsertByCount(x, s[1..]);
      assert InsertByCount(x, s) == [s[0]] + rest;
      assert s[0] in s;
      forall y | y in rest ensures y.0 != s[0].0 {
        assert y == x || y in s[1..];
      }
    }
  }

  /** The keys of a list of groups. */
  function KeysOf(s: seq<(string, nat)>): (r: set<string>)
    ensures forall k :: k in r <==> exists y :: y in s && y.0 == k
  {
    set y | y in s :: y.0
  }

  lemma KeysOfTail(s: seq<(string, nat)>)
    requires s != []
    ensures DistinctKeys(s) ==> s[0].0 !in KeysOf(s[1..]) && DistinctKeys(s[1..])
  {
    if DistinctKeys(s) {
      forall y | y in s[1..] ensures y.0 != s[0].0 {
        var j :| 0 <= j < |s[1..]| && s[1..][j] == y;
        assert s[j + 1] == y;
      }
    }
  }

  /** Insertion sort by count, descending; the groups themselves are kept. */
  function SortByCount(s: seq<(string, nat)>): (r: seq<(string, nat)>)
    ensures CountsDescending(r)
    ensures |r| == |s| && forall y :: y in r <==> y in s
    ensures DistinctKeys(s) ==> DistinctKeys(r)
  {
    if s == [] then []
    else
      var rest := SortByCount(s[1..]);
      KeysOfTail(s);
      assert DistinctKeys(s) ==> DistinctKeys(InsertByCount(s[0], rest)) by {
        if DistinctKeys(s) {
          assert s[0].0 !in KeysOf(rest);
          InsertKeepsKeysDistinct(s[0], rest);
        }
      }
      InsertByCount(s[0], rest)
  }

  /** `GROUP BY` over the fetched rows: one group per distinct label, with its row count. */
  function GroupsOf(fetched: seq<(int, Asset)>): (r: seq<(string, nat)>)
    ensures DistinctKeys(r)
    ensures forall y :: y in r ==> y.1 == Count(fetched, HasLabel(y.0))
    ensures forall k :: 0 <= k < |fetched| ==> TipoLabel(fetched[k].1) in KeysOf(r)
    ensures forall y :: y in r ==> exists k :: 0 <= k < |fetched| && TipoLabel(fetched[k].1) == y.0
  {
    var labels := Labels(fetched);
    var groups := GroupCounts(labels, fetched);
    forall k | 0 <= k < |fetched| ensures TipoLabel(fetched[k].1) in KeysOf(groups) {
      assert TipoLabel(fetched[k].1) in labels;
      var j :| 0 <= j < |labels| && labels[j] == TipoLabel(fetched[k].1);
      assert groups[j] in groups;
    }
    forall y | y in groups ensures exists k :: 0 <= k < |fetched| && TipoLabel(fetched[k].1) == y.0 {
      var j :| 0 <= j < |groups| && groups[j] == y;
      assert labels[j] in labels;
    }
    groups
  }

  /**
   * `obter_tipos_ativos`: one group per label, with the number of rows
   * carrying it, largest first. The order among equal counts is SQLite's and
   * is not fixed here.
   */
  function TiposAtivos(t: Table<Asset>): (r: seq<(string, nat)>)
    requires t.Valid()
    ensures CountsDescending(r) && DistinctKeys(r)
    ensures forall y :: y in r ==> y.1 == Count(t.Listing(), HasLabel(y.0))
    ensures forall y :: y in r <==> y in GroupsOf(t.Listing())
  {
    SortByCount(GroupsOf(t.Listing()))
  }

  /** Every row's label has a group. */
  lemma TiposAtivosCoverRows(t: Table<Asset>)
    requires t.Valid()
    ensures forall id :: id in t.rows ==> TipoLabel(t.rows[id]) in KeysOf(TiposAtivos(t))
  {
    SameKeys(TiposAtivos(t), GroupsOf(t.Listing()));
    forall id | id in t.rows ensures TipoLabel(t.rows[id]) in KeysOf(GroupsOf(t.Listing())) {
      RowGrouped(t.Listing(), id, t.rows[id]);
    }
  }

  lemma RowGrouped(fetched: seq<(int, Asset)>, id: int, a: Asset)
    requires (id, a) in fetched
    ensures TipoLabel(a) in KeysOf(GroupsOf(fetched))
  {
    var k :| 0 <= k < |fetched| && fetched[k] == (id, a);
  }

  lemma SameKeys(r: seq<(string, nat)>, s: seq<(string, nat)>)
    requires forall y :: y in r <==> y in s
    ensures KeysOf(r) == KeysOf(s)
  {
  }

  /** Every group has a row: no label is reported with a zero count. */
  lemma TiposAtivosOnlyRows(t: Table<Asset>)
    requires t.Valid()
    ensures forall y :: y in TiposAtivos(t) ==> y.1 > 0 && exists id :: id in t.rows && TipoLabel(t.rows[id]) == y.0
  {
    var fetched := t.Listing();
    forall y | y in TiposAtivos(t) ensures y.1 > 0 && exists id :: id in t.rows && TipoLabel(t.rows[id]) == y.0 {
      GroupHasRow(fetched, y);
      var k :| 0 <= k < |fetched| && TipoLabel(fetched[k].1) == y.0;
      assert fetched[k].0 in t.rows && t.rows[fetched[k].0] == fetched[k].1;
    }
  }

  lemma GroupHasRow(fetched: seq<(int, Asset)>, y: (string, nat))
    requires y in GroupsOf(fetched)
    ensures y.1 > 0 && exists k :: 0 <= k < |fetched| && TipoLabel(fetched[k].1) == y.0
  {
    var k :| 0 <= k < |fetched| && TipoLabel(fetched[k].1) == y.0;
    CountPositive(fetched, HasLabel(y.0), k);
  }
}
