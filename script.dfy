/**
 * `script.js`: the inventory page (table, search, add, edit and delete), the
 * password-change form and the software-version check of the settings page.
 * The page's globals `assetsData` and `assetIdToDelete`, the table body, the
 * hidden id input and the sequence of visible effects are the fields of
 * `InventoryPage`; each awaited `fetch` is a `Response` parameter.
 */
module Script {
  import opened Common
  import opened Storage
  import opened Client
  import Api

  // ---------------------------------------------------------------- row and class mapping

  /** The CSS class of the condition cell. */
  function ConditionClass(condicao: Option<string>): (r: string)
    ensures r == "danger" <==> condicao == Some("Alocado") || condicao == Some("Crítico")
    ensures r == "warning" <==> condicao == Some("Manutenção")
    ensures r == "success" <==> condicao !in {Some("Alocado"), Some("Crítico"), Some("Manutenção")}
  {
    if condicao == Some("Alocado") || condicao == Some("Crítico") then "danger"
    else if condicao == Some("Manutenção") then "warning"
    else "success"
  }

  /** The CSS class of the status cell: strict comparison with 'Online'. */
  function StatusClass(status: Option<string>): (r: string)
    ensures r in {"success", "danger"}
    ensures r == "success" <==> status == Some("Online")
  {
    if status == Some("Online") then "success" else "danger"
  }

  /** The five text columns, in display order. */
  function Shown(a: ClientAsset): seq<Option<string>> {
    [a.nome, a.mac, a.ip, a.status, a.condicao]
  }

  const EmptyRow := Placeholder(6, "Nenhum ativo encontrado.")
  const FailedRow := Placeholder(6, "Falha ao conectar com o servidor.")

  /** One `<tr>` of `renderTable`: five text cells, then the action icons bound to the asset's id. */
  function RenderRow(a: ClientAsset): (r: Row)
    ensures r.AssetRow? && r.id == a.id && |r.cells| == 6
    ensures forall k :: 0 <= k < 5 ==> r.cells[k].text == if Present(Shown(a)[k]) then Shown(a)[k].value else "-"
    ensures r.cells[3].cls == "success" <==> a.status == Some("Online")
    ensures r.cells[4].cls == ConditionClass(a.condicao) && r.cells[5].cls == "action-icons"
  {
    AssetRow(a.id, [
      Cell(OrElse(a.nome, "-"), ""),
      Cell(OrElse(a.mac, "-"), ""),
      Cell(OrElse(a.ip, "-"), ""),
      Cell(OrElse(a.status, "-"), StatusClass(a.status)),
      Cell(OrElse(a.condicao, "-"), ConditionClass(a.condicao)),
      Cell("", "action-icons")])
  }

  // ---------------------------------------------------------------- search

  /** The search term as the filter uses it: lower-cased, then trimmed. */
  function Needle(term: string): (r: string)
    ensures r == [] || (!IsSpace(r[0]) && !IsSpace(r[|r| - 1]))
    ensures forall i :: 0 <= i < |r| ==> !IsUpperChar(r[i])
  {
    StripKeepsChars(Lower(term));
    Strip(Lower(term))
  }

  /** `f && f.toLowerCase().includes(needle)`. */
  predicate FieldHas(f: Option<string>, needle: string) {
    Present(f) && Contains(Lower(f.value), needle)
  }

  /** Some displayed column is non-empty. */
  predicate HasSomeField(a: ClientAsset) {
    Present(a.nome) || Present(a.mac) || Present(a.ip) || Present(a.status) || Present(a.condicao)
  }

  /** Any of the five displayed columns holds the needle; the empty needle is in every non-empty column. */
  predicate Matches(needle: string, a: ClientAsset)
    ensures Matches(needle, a) ==> HasSomeField(a)
    ensures needle == "" ==> (Matches(needle, a) <==> HasSomeField(a))
  {
    ContainsEmpty(Lower(OrElse(a.nome, "")));
    ContainsEmpty(Lower(OrElse(a.mac, "")));
    ContainsEmpty(Lower(OrElse(a.ip, "")));
    ContainsEmpty(Lower(OrElse(a.status, "")));
    ContainsEmpty(Lower(OrElse(a.condicao, "")));
    FieldHas(a.nome, needle) || FieldHas(a.mac, needle) || FieldHas(a.ip, needle)
      || FieldHas(a.status, needle) || FieldHas(a.condicao, needle)
  }

  /** The `input` listener's filter over `assetsData`. */
  function Search(assets: seq<ClientAsset>, term: string): (r: seq<ClientAsset>)
    ensures SubseqOf(r, assets)
    ensures forall a :: a in r <==> a in assets && Matches(Needle(term), a)
  {
    FilterIsSubseq(assets, (a: ClientAsset) => Matches(Needle(term), a));
    Filter(assets, (a: ClientAsset) => Matches(Needle(term), a))
  }

  /** An asset whose five columns are all empty is never shown, whatever the term. */
  lemma BlankAssetNeverFound(assets: seq<ClientAsset>, term: string, a: ClientAsset)
    requires !HasSomeField(a)
    ensures a !in Search(assets, term)
  {
  }

  /** A term that is empty after trimming keeps exactly the assets with some non-empty column, in order. */
  lemma BlankTermKeepsNonBlank(assets: seq<ClientAsset>, term: string)
    requires Needle(term) == ""
    ensures Search(assets, term) == Filter(assets, HasSomeField)
  {
    forall a: ClientAsset | a in assets
      ensures Matches(Needle(term), a) == HasSomeField(a)
    {
      ContainsEmpty(Lower(OrElse(a.nome, "")));
      ContainsEmpty(Lower(OrElse(a.mac, "")));
      ContainsEmpty(Lower(OrElse(a.ip, "")));
      ContainsEmpty(Lower(OrElse(a.status, "")));
      ContainsEmpty(Lower(OrElse(a.condicao, "")));
    }
    FilterSame(assets, (a: ClientAsset) => Matches(Needle(term), a), HasSomeField);
  }

  // ---------------------------------------------------------------- saving

  /**
   * The form inputs at submit time; `None` where `getElementById` finds no
   * element (the type select is optional in the markup).
   */
  datatype AssetForm = AssetForm(
    nome: Option<string>,
    mac: Option<string>,
    ip: Option<string>,
    tipo: Option<string>,
    status: Option<string>,
    condicao: Option<string>)

  const ApiUrl := "/api/ativos"

  /** `assetData`: each input's value, or its default when missing or empty. */
  function AssetMembers(form: AssetForm): (m: seq<(string, string)>)
    ensures |m| == 6
    ensures m[0] == ("nome", if Present(form.nome) then form.nome.value else "Nome Indefinido")
    ensures m[1] == ("mac_address", if Present(form.mac) then form.mac.value else "")
    ensures m[2] == ("ip_address", if Present(form.ip) then form.ip.value else "")
    ensures m[3] == ("tipo", if Present(form.tipo) then form.tipo.value else "Outros")
    ensures m[4] == ("status", if Present(form.status) then form.status.value else "Online")
    ensures m[5] == ("condicao", if Present(form.condicao) then form.condicao.value else "Disponível")
  {
    [("nome", OrElse(form.nome, "Nome Indefinido")), ("mac_address", OrElse(form.mac, "")),
     ("ip_address", OrElse(form.ip, "")), ("tipo", OrElse(form.tipo, "Outros")),
     ("status", OrElse(form.status, "Online")), ("condicao", OrElse(form.condicao, "Disponível"))]
  }

  /** The request the submit handler sends: PUT to the asset's URL iff the hidden id is non-empty. */
  function SaveRequest(form: AssetForm, hiddenId: string): (e: Effect)
    ensures e.Request? && e.payload == AssetPayload(AssetMembers(form))
    ensures e.verb == "PUT" <==> hiddenId != ""
    ensures e.verb != "PUT" ==> e.verb == "POST" && e.url == ApiUrl
    ensures e.verb == "PUT" ==> e.url == ApiUrl + "/" + hiddenId
  {
    if hiddenId != "" then Request("PUT", ApiUrl + "/" + hiddenId, AssetPayload(AssetMembers(form)))
    else Request("POST", ApiUrl, AssetPayload(AssetMembers(form)))
  }

  /** The message of the error a failed call throws: the network error's, or the reply's `erro`, or `fallback`. */
  function FailureMessage(resp: Response, fallback: string): string {
    if resp.Rejected? then resp.message else OrElse(resp.erro, fallback)
  }

  /**
   * The submit handler's effects: the request, then on success a toast, the
   * modal closed and a reload (and the charts reloaded on the dashboard); on
   * failure only an error toast.
   */
  function SubmitEffects(form: AssetForm, hiddenId: string, resp: Response, dashboard: bool): (r: seq<Effect>)
    ensures |r| >= 2 && r[0] == SaveRequest(form, hiddenId)
    ensures Requests(r) == [r[0]]
    ensures Succeeded(resp) <==> CloseModal("asset-modal") in r
    ensures Succeeded(resp) <==> Reload in r
    ensures !Succeeded(resp) ==> r == [r[0], Toast(FailureMessage(resp, "Falha ao salvar ativo"), "error")]
    ensures ReloadCharts in r <==> Succeeded(resp) && dashboard
  {
    var sent := SaveRequest(form, hiddenId);
    var r := if Succeeded(resp) then
      [sent, Toast(if hiddenId != "" then "Ativo atualizado com sucesso!" else "Ativo adicionado com sucesso!", "success"),
       CloseModal("asset-modal"), Reload] + (if dashboard then [ReloadCharts] else [])
    else
      [sent, Toast(FailureMessage(resp, "Falha ao salvar ativo"), "error")];
    assert r[0] == sent && forall k :: 1 <= k < |r| ==> !r[k].Request?;
    OnlyFirstRequest(r);
    r
  }

  /** A list whose only request is its head has that request as its request list. */
  lemma {:induction false} OnlyFirstRequest(r: seq<Effect>)
    requires r != [] && r[0].Request?
    requires forall k :: 1 <= k < |r| ==> !r[k].Request?
    ensures Requests(r) == [r[0]]
  {
    assert r[0] in r[..1];
    NoRequests(r[1..]);
    assert Requests(r) == [r[0]] + Requests(r[1..]);
  }

  lemma {:induction false} NoRequests(r: seq<Effect>)
    requires forall k :: 0 <= k < |r| ==> !r[k].Request?
    ensures Requests(r) == []
  {
    if r != [] {
      NoRequests(r[1..]);
      assert Requests(r) == Requests(r[1..]);
    }
  }

  /** The inputs the edit button fills from the asset (the type select only when the markup has one). */
  function Prefill(a: ClientAsset, hasTypeSelect: bool): (f: AssetForm)
    ensures f.nome == Some(OrElse(a.nome, "")) && f.mac == Some(OrElse(a.mac, "")) && f.ip == Some(OrElse(a.ip, ""))
    ensures f.tipo.Some? <==> hasTypeSelect
    ensures hasTypeSelect ==> f.tipo == Some(OrElse(a.tipo, "Outros"))
    ensures f.status == Some(OrElse(a.status, "Online")) && f.condicao == Some(OrElse(a.condicao, "Disponível"))
  {
    AssetForm(Some(OrElse(a.nome, "")), Some(OrElse(a.mac, "")), Some(OrElse(a.ip, "")),
      if hasTypeSelect then Some(OrElse(a.tipo, "Outros")) else None,
      Some(OrElse(a.status, "Online")), Some(OrElse(a.condicao, "Disponível")))
  }

  /**
   * Editing a listed asset and saving it untouched sends a PUT to that asset's
   * URL, whose last segment Flask's `int` converter reads back as the id.
   */
  lemma EditThenSaveTargetsAsset(a: ClientAsset, form: AssetForm)
    requires a.id >= 0
    ensures var e := SaveRequest(form, IntToString(a.id));
      e.verb == "PUT" && e.url == ApiUrl + "/" + NatToString(a.id)
      && AllDigits(NatToString(a.id)) && DigitsValue(NatToString(a.id)) == a.id
  {
    DigitsValueOfNatToString(a.id);
  }

  /** Each key of the payload occurs once, so the server reads back the value the form sent under it. */
  lemma MemberReadBack(form: AssetForm, k: nat)
    requires k < 6
    ensures Member(AssetMembers(form), AssetMembers(form)[k].0) == Str(AssetMembers(form)[k].1)
  {
    var m := AssetMembers(form);
    assert forall j :: 0 <= j < 6 ==> m[j].0 == ["nome", "mac_address", "ip_address", "tipo", "status", "condicao"][j];
    MemberAt(m, k);
  }

  /**
   * Saving the prefilled form untouched stores back every column that was
   * present, through `update_ativo`: the row is unchanged.
   */
  lemma UntouchedEditKeepsRow(id: int, row: Asset, hasTypeSelect: bool)
    requires row.nome != "" && Present(row.ip) && Present(row.mac) && Present(row.status) && Present(row.condicao)
    requires hasTypeSelect && Present(row.tipo)
    ensures var m := SaveRequest(Prefill(FromRow((id, row)), hasTypeSelect), IntToString(id)).payload.members;
      var req := Api.AssetRequest(Member(m, "nome"), Member(m, "ip_address"), Member(m, "mac_address"),
        Member(m, "status"), Member(m, "condicao"), Member(m, "tipo"));
      Api.UpdateValid(req) && Api.UpdatedAsset(row, req) == row
  {
    var form := Prefill(FromRow((id, row)), hasTypeSelect);
    var m := SaveRequest(form, IntToString(id)).payload.members;
    assert m == AssetMembers(form);
    MemberReadBack(form, 0);
    MemberReadBack(form, 1);
    MemberReadBack(form, 2);
    MemberReadBack(form, 3);
    MemberReadBack(form, 4);
    MemberReadBack(form, 5);
  }

  // ---------------------------------------------------------------- deleting

  /**
   * The confirm button's effects once an id is selected: the DELETE, then a
   * toast and a reload on success or an error toast, then the modal closed.
   */
  function ConfirmDeleteEffects(id: int, resp: Response, dashboard: bool): (r: seq<Effect>)
    ensures |r| >= 3 && r[0] == Request("DELETE", ApiUrl + "/" + IntToString(id), NoBody)
    ensures r[|r| - 1] == CloseModal("delete-confirm-modal")
    ensures Requests(r) == [r[0]]
    ensures Reload in r <==> Succeeded(resp)
    ensures !Succeeded(resp) ==> r[1] == Toast(FailureMessage(resp, "Falha ao excluir"), "error")
  {
    var sent := Request("DELETE", ApiUrl + "/" + IntToString(id), NoBody);
    var r := [sent] + (if Succeeded(resp) then
        [Toast("Ativo excluído com sucesso.", "info"), Reload] + (if dashboard then [ReloadCharts] else [])
      else [Toast(FailureMessage(resp, "Falha ao excluir"), "error")])
      + [CloseModal("delete-confirm-modal")];
    assert forall k :: 1 <= k < |r| ==> !r[k].Request?;
    OnlyFirstRequest(r);
    r
  }

  // ---------------------------------------------------------------- password change

  /** What `localStorage` holds: no session, or a logged-in user whose `id` may be missing. */
  datatype Session = NoSession | LoggedUser(id: Option<int>)

  /** The first failing check of the password form, in the handler's order; None when all pass. */
  function PasswordCheck(atual: string, nova: string, confirmacao: string, session: Session): (r: Option<string>)
    ensures r.None? <==> (atual != "" && JsLength(nova) >= 4 && nova == confirmacao
      && session.LoggedUser? && Api.TruthyId(session.id))
    ensures atual == "" ==> r == Some("Digite sua senha atual.")
    ensures atual != "" && JsLength(nova) < 4 ==> r == Some("A nova senha deve ter pelo menos 4 caracteres.")
    ensures atual != "" && JsLength(nova) >= 4 && nova != confirmacao ==> r == Some("A nova senha e a confirmação não coincidem.")
    ensures atual != "" && JsLength(nova) >= 4 && nova == confirmacao && !(session.LoggedUser? && Api.TruthyId(session.id))
      ==> r == Some("Erro: Sessão inválida. Faça login novamente.")
  {
    if atual == "" then Some("Digite sua senha atual.")
    else if JsLength(nova) < 4 then Some("A nova senha deve ter pelo menos 4 caracteres.")
    else if nova != confirmacao then Some("A nova senha e a confirmação não coincidem.")
    else if !(session.LoggedUser? && Api.TruthyId(session.id)) then Some("Erro: Sessão inválida. Faça login novamente.")
    else None
  }

  /** Two emoji are four UTF-16 code units, so they meet the four-character minimum. */
  lemma AstralPairMeetsMinimum(atual: string, id: int)
    requires atual != "" && id != 0
    ensures PasswordCheck(atual, "\U{1F600}\U{1F600}", "\U{1F600}\U{1F600}", LoggedUser(Some(id))).None?
  {
    assert JsLength("\U{1F600}\U{1F600}") == 4 by {
      assert "\U{1F600}\U{1F600}"[1..] == "\U{1F600}";
      assert "\U{1F600}"[1..] == "";
    }
  }

  /** The password form's effects: an error toast when a check fails, else the request and its outcome. */
  function PasswordEffects(atual: string, nova: string, confirmacao: string, session: Session, resp: Response)
    : (r: seq<Effect>)
    ensures PasswordCheck(atual, nova, confirmacao, session).Some? ==>
      r == [Toast(PasswordCheck(atual, nova, confirmacao, session).value, "error")]
    ensures Requests(r) == [] <==> PasswordCheck(atual, nova, confirmacao, session).Some?
    ensures PasswordCheck(atual, nova, confirmacao, session).None? ==>
      Requests(r) == [Request("POST", "/api/trocar-senha", PasswordPayload(session.id.value, atual, nova))]
    ensures ResetForm("form-trocar-senha") in r <==> PasswordCheck(atual, nova, confirmacao, session).None? && Succeeded(resp)
  {
    var check := PasswordCheck(atual, nova, confirmacao, session);
    if check.Some? then
      var r := [Toast(check.value, "error")];
      NoRequests(r);
      r
    else
      var sent := Request("POST", "/api/trocar-senha", PasswordPayload(session.id.value, atual, nova));
      var after :=
        if resp.Rejected? then [Toast("Erro de conexão com o servidor.", "error")]
        else if resp.ok then
          [CloseModal("modal-trocar-senha"), Toast("Sucesso! " + JsUndefined(resp.mensagem), "success"),
           ResetForm("form-trocar-senha")]
        else [Toast("Erro: " + JsUndefined(resp.erro), "error")];
      var r := [Toast("Processando...", "info"), sent] + after;
      NoRequests(r[..1]);
      OnlyFirstRequest(r[1..]);
      assert r == r[..1] + r[1..];
      RequestsAppend(r[..1], r[1..]);
      r
  }

  lemma {:induction false} RequestsAppend(a: seq<Effect>, b: seq<Effect>)
    ensures Requests(a + b) == Requests(a) + Requests(b)
  {
    if a == [] {
      assert a + b == b;
    } else {
      assert (a + b)[1..] == a[1..] + b;
      RequestsAppend(a[1..], b);
    }
  }

  /**
   * A form that passes the client checks never gets the server's 400: the id
   * is truthy and both passwords are non-empty.
   */
  lemma CheckedFormPassesServerValidation(users: Table<User>, atual: string, nova: string, confirmacao: string,
    session: Session)
    requires users.Valid()
    requires PasswordCheck(atual, nova, confirmacao, session).None?
    ensures Api.TrocarSenhaSpec(users, session.id, Str(atual), Str(nova)).reply.code != 400
  {
  }

  // ---------------------------------------------------------------- version check

  const Separator := " - "

  /** `value.split(' - ')[0]`: the text before the first separator, or all of it. */
  function VersionPrefix(v: string): (p: string)
    ensures |p| <= |v| && v[..|p|] == p
    ensures forall j :: 0 <= j <= |p| - 3 ==> !StartsWith(p[j..], Separator)
    ensures |p| < |v| ==> StartsWith(v[|p|..], Separator)
    ensures forall j :: 0 <= j < |p| ==> !StartsWith(v[j..], Separator)
    ensures |p| == |v| <==> FindFirst(v, Separator).None?
  {
    var i := FindFirst(v, Separator);
    if i.Some? then
      forall j | 0 <= j <= i.value - 3 ensures !StartsWith(v[..i.value][j..], Separator) {
        assert v[..i.value][j..][..3] == v[j..][..3];
      }
      assert v[i.value..][..3] == v[i.value..i.value + 3];
      v[..i.value]
    else
      forall j | 0 <= j <= |v| - 3 ensures !StartsWith(v[..|v|][j..], Separator) {
        assert v[..|v|] == v;
      }
      v
  }

  /** `String(n).padStart(2, '0')` for a day or month number. */
  function Pad2(n: nat): (r: string)
    requires n < 100
    ensures |r| == 2 && AllDigits(r) && DigitsValue(r) == n
  {
    DigitsValueOfNatToString(n);
    if n < 10 then "0" + NatToString(n) else NatToString(n)
  }

  /** The `DD/MM/YYYY` date of the check. */
  function DateText(day: nat, month: nat, year: nat): string
    requires 1 <= day <= 31 && 1 <= month <= 12
  {
    Pad2(day) + "/" + Pad2(month) + "/" + NatToString(year)
  }

  /** The version field after the check button: its prefix, then the date of the check. */
  function RewriteVersion(v: string, day: nat, month: nat, year: nat): (r: string)
    requires 1 <= day <= 31 && 1 <= month <= 12
    ensures r == VersionPrefix(v) + Separator + "Última verificação: " + DateText(day, month, year)
  {
    VersionPrefix(v) + Separator + "Última verificação: " + DateText(day, month, year)
  }

  /** The prefix ends with " -" (only possible when the value has no separator at all). */
  predicate DanglingDash(p: string) {
    |p| >= 2 && p[|p| - 2..] == " -"
  }

  /** A prefix followed by a separator is found again, unless it ends with a dangling " -". */
  lemma PrefixFoundAgain(p: string, rest: string)
    requires forall j :: 0 <= j <= |p| - 3 ==> !StartsWith(p[j..], Separator)
    requires !DanglingDash(p)
    ensures VersionPrefix(p + Separator + rest) == p
  {
    var s := p + Separator + rest;
    assert s[|p|..][..3] == Separator;
    forall j | 0 <= j < |p| ensures !StartsWith(s[j..], Separator) {
      if j <= |p| - 3 {
        assert s[j..][..3] == p[j..][..3];
      } else if j == |p| - 2 {
        assert s[j..][..3] == [p[j], p[j + 1], ' '];
      } else {
        assert s[j..][..3] == [p[j], ' ', '-'];
      }
    }
    FindFirstIs(s, Separator, |p|);
  }

  /** Checking twice on the same date leaves what checking once leaves, unless the prefix ends with " -". */
  lemma RewriteVersionIdempotent(v: string, day: nat, month: nat, year: nat)
    requires 1 <= day <= 31 && 1 <= month <= 12
    requires !DanglingDash(VersionPrefix(v))
    ensures RewriteVersion(RewriteVersion(v, day, month, year), day, month, year) == RewriteVersion(v, day, month, year)
  {
    var p := VersionPrefix(v);
    var tail := "Última verificação: " + DateText(day, month, year);
    var once := RewriteVersion(v, day, month, year);
    assert once == p + Separator + tail;
    PrefixFoundAgain(p, tail);
    assert VersionPrefix(once) == p;
  }

  /** When the value has a separator, the prefix never ends with " -": the exception needs a value without one. */
  lemma SeparatorMeansNoDanglingDash(v: string)
    requires FindFirst(v, Separator).Some?
    ensures !DanglingDash(VersionPrefix(v))
  {
    var p := VersionPrefix(v);
    if |p| >= 2 {
      var n := |p|;
      assert v[n..][..3] == v[n..n + 3];
      NoDashBeforeSeparator(v, n);
      assert p[n - 2..] == v[..n][n - 2..] == v[n - 2..n];
    }
  }

  /** Two characters before a separator, " -" would itself start a separator. */
  lemma NoDashBeforeSeparator(v: string, n: nat)
    requires 2 <= n && n + 3 <= |v| && v[n..n + 3] == Separator
    requires !StartsWith(v[n - 2..], Separator)
    ensures v[n - 2..n] != " -"
  {
    assert v[n - 2..][..3] == [v[n - 2], v[n - 1], v[n]];
    assert v[n] == v[n..n + 3][0];
  }

  /** Behind a value ending in " -", the separator is found two characters early. */
  lemma DashJoinsSeparator(v: string, tail: string)
    requires DanglingDash(v)
    ensures |VersionPrefix(v + Separator + tail)| <= |v| - 2
  {
    var s := v + Separator + tail;
    assert s[|v| - 2..][..3] == [v[|v| - 2], v[|v| - 1], ' '];
    assert v[|v| - 2..] == [v[|v| - 2], v[|v| - 1]];
    assert StartsWith(s[|v| - 2..], Separator);
  }

  /** A value without separator ending in " -" loses its dash on the second check: the rewrite is not idempotent there. */
  lemma DanglingDashNotIdempotent(v: string, day: nat, month: nat, year: nat)
    requires 1 <= day <= 31 && 1 <= month <= 12
    requires FindFirst(v, Separator).None? && DanglingDash(v)
    ensures RewriteVersion(RewriteVersion(v, day, month, year), day, month, year) != RewriteVersion(v, day, month, year)
  {
    var tail := "Última verificação: " + DateText(day, month, year);
    assert VersionPrefix(v) == v by {
      assert v[..|v|] == v;
    }
    var once := RewriteVersion(v, day, month, year);
    assert once == v + Separator + tail;
    DashJoinsSeparator(v, tail);
  }

  /** For instance the value "v -". */
  lemma DanglingDashExample()
    ensures RewriteVersion(RewriteVersion("v -", 1, 1, 2025), 1, 1, 2025) != RewriteVersion("v -", 1, 1, 2025)
  {
    var v := "v -";
    assert v[0] == 'v' && Separator[0] == ' ';
    DanglingDashNotIdempotent(v, 1, 1, 2025);
  }

  // ---------------------------------------------------------------- the page

  /** The inventory page's state. */
  class InventoryPage {
    /** `assetsData`: the last list fetched. */
    var assetsData: seq<ClientAsset>
    /** The rows of `inventory-table-body`. */
    var body: seq<Row>
    /** The hidden id input `assetIndex` ("" when adding). */
    var hiddenId: string
    /** `assetIdToDelete`. */
    var assetIdToDelete: Option<int>
    /** Requests sent, toasts shown and modals opened or closed, in order. */
    var effects: seq<Effect>

    constructor ()
      ensures assetsData == [] && body == [] && hiddenId == "" && assetIdToDelete == None && effects == []
    {
      assetsData := [];
      body := [];
      hiddenId := "";
      assetIdToDelete := None;
      effects := [];
    }

    /** `renderTable(data)`. */
    method RenderTable(data: seq<ClientAsset>)
      modifies this`body
      ensures body == Rendered(data, RenderRow, EmptyRow)
    {
      body := RenderRows(data, RenderRow, EmptyRow);
    }

    /** `carregarDadosDaAPI`: a fetched list replaces `assetsData` and is rendered; a failure keeps the list. */
    method Load(fetched: Option<seq<ClientAsset>>)
      modifies this`assetsData, this`body, this`effects
      ensures fetched.Some? ==> (assetsData == fetched.value
        && body == Rendered(fetched.value, RenderRow, EmptyRow) && effects == old(effects))
      ensures fetched.None? ==> (assetsData == old(assetsData) && body == [FailedRow]
        && effects == old(effects) + [Toast("Erro ao carregar ativos.", "error")])
    {
      if fetched.Some? {
        assetsData := fetched.value;
        RenderTable(assetsData);
      } else {
        effects := effects + [Toast("Erro ao carregar ativos.", "error")];
        body := [FailedRow];
      }
    }

    /** The search box's `input` listener: renders the matching assets, leaving `assetsData` alone. */
    method SearchInput(term: string)
      modifies this`body
      ensures body == Rendered(Search(assetsData, term), RenderRow, EmptyRow)
    {
      RenderTable(Search(assetsData, term));
    }

    /** The add button: an empty hidden id, so that the next submit POSTs. */
    method AddClick()
      modifies this`hiddenId, this`effects
      ensures hiddenId == "" && effects == old(effects) + [OpenModal("asset-modal")]
    {
      hiddenId := "";
      effects := effects + [OpenModal("asset-modal")];
    }

    /** A row's edit button: finds the asset by id and prefills the form; nothing happens when it is gone. */
    method EditClick(id: int, hasTypeSelect: bool) returns (form: Option<AssetForm>)
      modifies this`hiddenId, this`effects
      ensures FindById(assetsData, id).None? ==> form.None? && hiddenId == old(hiddenId) && effects == old(effects)
      ensures FindById(assetsData, id).Some? ==> var a := FindById(assetsData, id).value;
        form == Some(Prefill(a, hasTypeSelect)) && hiddenId == IntToString(a.id)
        && effects == old(effects) + [OpenModal("asset-modal")]
    {
      var found := FindById(assetsData, id);
      if found.None? {
        return None;
      }
      hiddenId := IntToString(found.value.id);
      form := Some(Prefill(found.value, hasTypeSelect));
      effects := effects + [OpenModal("asset-modal")];
    }

    /** The form's submit listener. */
    method Submit(form: AssetForm, resp: Response, dashboard: bool)
      modifies this`effects
      ensures effects == old(effects) + SubmitEffects(form, hiddenId, resp, dashboard)
    {
      var sent := SaveRequest(form, hiddenId);
      if Succeeded(resp) {
        var message := if hiddenId != "" then "Ativo atualizado com sucesso!" else "Ativo adicionado com sucesso!";
        effects := effects + [sent, Toast(message, "success"), CloseModal("asset-modal"), Reload];
        if dashboard {
          effects := effects + [ReloadCharts];
        }
      } else {
        effects := effects + [sent, Toast(FailureMessage(resp, "Falha ao salvar ativo"), "error")];
      }
    }

    /** A row's delete button selects its asset. */
    method DeleteClick(a: ClientAsset)
      modifies this`assetIdToDelete, this`effects
      ensures assetIdToDelete == Some(a.id) && effects == old(effects) + [OpenModal("delete-confirm-modal")]
    {
      assetIdToDelete := Some(a.id);
      effects := effects + [OpenModal("delete-confirm-modal")];
    }

    /** The confirm button: nothing without a selection; otherwise DELETE, close, and clear the selection. */
    method ConfirmDelete(resp: Response, dashboard: bool)
      modifies this`assetIdToDelete, this`effects
      ensures old(assetIdToDelete).None? ==> assetIdToDelete == None && effects == old(effects)
      ensures old(assetIdToDelete).Some? ==> (assetIdToDelete == None
        && effects == old(effects) + ConfirmDeleteEffects(old(assetIdToDelete).value, resp, dashboard))
    {
      if assetIdToDelete.None? {
        return;
      }
      var id := assetIdToDelete.value;
      var sent := [Request("DELETE", ApiUrl + "/" + IntToString(id), NoBody)];
      var outcome: seq<Effect>;
      if Succeeded(resp) {
        outcome := [Toast("Ativo excluído com sucesso.", "info"), Reload];
        if dashboard {
          outcome := outcome + [ReloadCharts];
        }
      } else {
        outcome := [Toast(FailureMessage(resp, "Falha ao excluir"), "error")];
      }
      var closed := [CloseModal("delete-confirm-modal")];
      assert sent + outcome + closed == ConfirmDeleteEffects(id, resp, dashboard);
      effects := effects + (sent + outcome + closed);
      assetIdToDelete := None;
    }

    /** The password form's submit handler; a missing input reads as "". */
    method ChangePassword(atual: Option<string>, nova: Option<string>, confirmacao: Option<string>,
      session: Session, resp: Response)
      modifies this`effects
      ensures effects == old(effects)
        + PasswordEffects(OrElse(atual, ""), OrElse(nova, ""), OrElse(confirmacao, ""), session, resp)
    {
      var senhaAtual := OrElse(atual, "");
      var novaSenha := OrElse(nova, "");
      var confirmSenha := OrElse(confirmacao, "");
      if senhaAtual == "" {
        effects := effects + [Toast("Digite sua senha atual.", "error")];
        return;
      }
      if JsLength(novaSenha) < 4 {
        effects := effects + [Toast("A nova senha deve ter pelo menos 4 caracteres.", "error")];
        return;
      }
      if novaSenha != confirmSenha {
        effects := effects + [Toast("A nova senha e a confirmação não coincidem.", "error")];
        return;
      }
      if !(session.LoggedUser? && Api.TruthyId(session.id)) {
        effects := effects + [Toast("Erro: Sessão inválida. Faça login novamente.", "error")];
        return;
      }
      effects := effects + [Toast("Processando...", "info"),
        Request("POST", "/api/trocar-senha", PasswordPayload(session.id.value, senhaAtual, novaSenha))];
      if resp.Rejected? {
        effects := effects + [Toast("Erro de conexão com o servidor.", "error")];
      } else if resp.ok {
        effects := effects + [CloseModal("modal-trocar-senha"), Toast("Sucesso! " + JsUndefined(resp.mensagem), "success"),
          ResetForm("form-trocar-senha")];
      } else {
        effects := effects + [Toast("Erro: " + JsUndefined(resp.erro), "error")];
      }
    }
  }
}
