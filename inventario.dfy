/**
 * `inventario.js`: the inventory page of the current front end. The global
 * `listaGlobalAtivos`, the table body, the hidden inputs `assetIdDatabase`
 * and `delete-id-target`, the refresh button's `disabled` flag and the
 * visible effects are the fields of `InventarioPage`.
 */
module Inventario {
  import opened Common
  import opened Client

  const ApiBase := "http://127.0.0.1:5000/api"
  const EmptyRow := Placeholder(6, "Nenhum ativo encontrado.")

  /** The status badge, with the page's own classes. */
  function StatusBadge(status: Option<string>): Cell {
    OnlineBadge(status, "badge-online", "badge-offline")
  }

  /** One row of `preencherTabela`. */
  function RenderRow(a: ClientAsset): (r: Row)
    ensures r.AssetRow? && r.id == a.id && |r.cells| == 6
    ensures r.cells[0].text == if Present(a.nome) then a.nome.value else "Sem Nome"
    ensures r.cells[1].text == (if Present(a.mac) then a.mac.value else "-")
      && r.cells[2].text == (if Present(a.ip) then a.ip.value else "-")
      && r.cells[4].text == (if Present(a.condicao) then a.condicao.value else "-")
    ensures r.cells[3].text in {"Online", "Offline"} && (r.cells[3].text == "Online" <==> a.status == Some("Online"))
  {
    AssetRow(a.id, [
      Cell(OrElse(a.nome, "Sem Nome"), "strong"),
      Cell(OrElse(a.mac, "-"), ""),
      Cell(OrElse(a.ip, "-"), ""),
      StatusBadge(a.status),
      Cell(OrElse(a.condicao, "-"), ""),
      Cell("", "action-icons")])
  }

  // ---------------------------------------------------------------- search

  /** `configurarBusca`'s condition: lower-cased (not trimmed) term; nome and MAC lower-cased, IP as is. */
  predicate Matches(termo: string, a: ClientAsset)
    ensures Matches(termo, a) ==> Present(a.nome) || Present(a.ip) || Present(a.mac)
    ensures termo == "" ==> (Matches(termo, a) <==> Present(a.nome) || Present(a.ip) || Present(a.mac))
  {
    ContainsEmpty(Lower(OrElse(a.nome, "")));
    ContainsEmpty(OrElse(a.ip, ""));
    ContainsEmpty(Lower(OrElse(a.mac, "")));
    (Present(a.nome) && Contains(Lower(a.nome.value), termo))
      || (Present(a.ip) && Contains(a.ip.value, termo))
      || (Present(a.mac) && Contains(Lower(a.mac.value), termo))
  }

  function Search(assets: seq<ClientAsset>, term: string): (r: seq<ClientAsset>)
    ensures SubseqOf(r, assets)
    ensures forall a :: a in r <==> a in assets && Matches(Lower(term), a)
  {
    FilterIsSubseq(assets, (a: ClientAsset) => Matches(Lower(term), a));
    Filter(assets, (a: ClientAsset) => Matches(Lower(term), a))
  }

  /** Status and condition are not searched: changing them never changes what a search shows. */
  lemma SearchIgnoresStatusAndCondition(a: ClientAsset, term: string, status: Option<string>, condicao: Option<string>)
    ensures Matches(Lower(term), a) == Matches(Lower(term), a.(status := status, condicao := condicao))
  {
  }

  predicate NoSpace(s: string) {
    forall i :: 0 <= i < |s| ==> s[i] != ' '
  }

  /**
   * The term is not trimmed: a term with a leading space finds none of the
   * assets whose three searched columns hold no space.
   */
  lemma LeadingSpaceFindsNoSpacelessAsset(assets: seq<ClientAsset>, term: string, a: ClientAsset)
    requires term != [] && term[0] == ' '
    requires NoSpace(OrElse(a.nome, "")) && NoSpace(OrElse(a.ip, "")) && NoSpace(OrElse(a.mac, ""))
    ensures a !in Search(assets, term)
  {
    var t := Lower(term);
    assert t[0] == ' ';
    NoSpaceNoMatch(Lower(OrElse(a.nome, "")), t);
    NoSpaceNoMatch(OrElse(a.ip, ""), t);
    NoSpaceNoMatch(Lower(OrElse(a.mac, "")), t);
  }

  /** A string without spaces contains no string that starts with one. */
  lemma {:induction false} NoSpaceNoMatch(s: string, t: string)
    requires t != [] && t[0] == ' '
    requires NoSpace(s)
    ensures !Contains(s, t)
    decreases |s|
  {
    if |t| <= |s| {
      assert s[..|t|][0] == s[0];
    }
    if |s| > 0 {
      NoSpaceNoMatch(s[1..], t);
    }
  }

  // ---------------------------------------------------------------- saving

  /**
   * The form at submit time: the four always-present inputs, and the
   * condition and type inputs, `None` when the markup has no such element.
   */
  datatype InventarioForm = InventarioForm(
    nome: string,
    mac: string,
    ip: string,
    status: string,
    condicao: Option<string>,
    tipo: Option<string>)

  /** `dados`: `tipo` is sent only when its input exists; `condicao` defaults to 'Disponível'. */
  function Members(form: InventarioForm): (m: seq<(string, string)>)
    ensures |m| == if form.tipo.Some? then 6 else 5
    ensures m[..4] == [("nome", form.nome), ("mac_address", form.mac), ("ip_address", form.ip), ("status", form.status)]
    ensures m[4] == ("condicao", if form.condicao.Some? then form.condicao.value else "Disponível")
    ensures form.tipo.Some? ==> m[5] == ("tipo", form.tipo.value)
  {
    [("nome", form.nome), ("mac_address", form.mac), ("ip_address", form.ip), ("status", form.status),
     ("condicao", if form.condicao.Some? then form.condicao.value else "Disponível")]
      + (if form.tipo.Some? then [("tipo", form.tipo.value)] else [])
  }

  /** `salvarAtivo`'s request: PUT to the asset's URL iff the hidden id is non-empty. */
  function SaveRequest(form: InventarioForm, id: string): (e: Effect)
    ensures e.Request? && e.payload == AssetPayload(Members(form))
    ensures e.verb == "PUT" <==> id != ""
    ensures e.verb == "PUT" ==> e.url == ApiBase + "/ativos/" + id
    ensures e.verb != "PUT" ==> e.verb == "POST" && e.url == ApiBase + "/ativos"
  {
    if id != "" then Request("PUT", ApiBase + "/ativos/" + id, AssetPayload(Members(form)))
    else Request("POST", ApiBase + "/ativos", AssetPayload(Members(form)))
  }

  /** Without a type input the request carries no `tipo`, so `update_ativo` keeps the stored one. */
  lemma NoTypeInputSendsNoTipo(form: InventarioForm, id: string)
    requires form.tipo.None?
    ensures Member(SaveRequest(form, id).payload.members, "tipo").Absent?
  {
  }

  /** Setting an input's `value` to a JSON null empties it. */
  function InputValue(o: Option<string>): string {
    if o.Some? then o.value else ""
  }

  /** The form `prepararEdicao` fills: every column as stored, the type 'Outros' when missing. */
  function EditForm(a: ClientAsset, hasCondition: bool, hasType: bool): (f: InventarioForm)
    ensures f.nome == InputValue(a.nome) && f.mac == InputValue(a.mac) && f.ip == InputValue(a.ip)
    ensures f.status == InputValue(a.status)
    ensures f.condicao == if hasCondition then Some(InputValue(a.condicao)) else None
    ensures f.tipo == if hasType then Some(OrElse(a.tipo, "Outros")) else None
  {
    InventarioForm(InputValue(a.nome), InputValue(a.mac), InputValue(a.ip), InputValue(a.status),
      if hasCondition then Some(InputValue(a.condicao)) else None,
      if hasType then Some(OrElse(a.tipo, "Outros")) else None)
  }

  // ---------------------------------------------------------------- the page

  class InventarioPage {
    /** `listaGlobalAtivos`. */
    var listaGlobalAtivos: seq<ClientAsset>
    /** The rows of `inventory-table-body`. */
    var body: seq<Row>
    /** The hidden input `assetIdDatabase` ("" = new asset). */
    var assetIdDatabase: string
    /** The hidden input `delete-id-target`. */
    var deleteTarget: string
    /** The refresh button's `disabled` flag. */
    var refreshDisabled: bool
    var effects: seq<Effect>

    constructor ()
      ensures listaGlobalAtivos == [] && body == [] && assetIdDatabase == "" && deleteTarget == ""
      ensures !refreshDisabled && effects == []
    {
      listaGlobalAtivos := [];
      body := [];
      assetIdDatabase := "";
      deleteTarget := "";
      refreshDisabled := false;
      effects := [];
    }

    /** `preencherTabela(dados)`. */
    method PreencherTabela(dados: seq<ClientAsset>)
      modifies this`body
      ensures body == Rendered(dados, RenderRow, EmptyRow)
    {
      body := RenderRows(dados, RenderRow, EmptyRow);
    }

    /**
     * `carregarDadosInventario`: whatever JSON array arrives replaces the list
     * wholesale and is rendered; a failed fetch or parse leaves both alone.
     */
    method Load(fetched: Option<seq<ClientAsset>>)
      modifies this`listaGlobalAtivos, this`body
      ensures fetched.Some? ==> listaGlobalAtivos == fetched.value && body == Rendered(fetched.value, RenderRow, EmptyRow)
      ensures fetched.None? ==> listaGlobalAtivos == old(listaGlobalAtivos) && body == old(body)
    {
      if fetched.Some? {
        listaGlobalAtivos := fetched.value;
        PreencherTabela(fetched.value);
      }
    }

    /** The search box's `input` listener. */
    method SearchInput(term: string)
      modifies this`body
      ensures body == Rendered(Search(listaGlobalAtivos, term), RenderRow, EmptyRow)
    {
      PreencherTabela(Search(listaGlobalAtivos, term));
    }

    /**
     * `atualizarComScan`: the button is disabled before the scan request and
     * enabled again last, whatever the outcome; the list reloads only after an
     * ok scan.
     */
    method Scan(hasButton: bool, scan: Response, reload: Option<seq<ClientAsset>>)
      modifies this`refreshDisabled, this`effects, this`listaGlobalAtivos, this`body
      ensures hasButton ==> !refreshDisabled
      ensures !hasButton ==> refreshDisabled == old(refreshDisabled)
      ensures var start := (if hasButton then [Disable("refresh-btn")] else [])
          + [Toast("Varrendo a rede por novos dispositivos...", "info"), Request("POST", ApiBase + "/scan-rede", NoBody)];
        var finish := if hasButton then [Enable("refresh-btn")] else [];
        if Succeeded(scan) then effects == old(effects) + start + [Reload, Toast("Inventário atualizado com sucesso!", "success")] + finish
        else effects == old(effects) + start + [Toast("Erro ao escanear.", "error")] + finish
      ensures Succeeded(scan) && reload.Some? ==> listaGlobalAtivos == reload.value
      ensures !Succeeded(scan) || reload.None? ==> listaGlobalAtivos == old(listaGlobalAtivos) && body == old(body)
    {
      if hasButton {
        refreshDisabled := true;
        effects := effects + [Disable("refresh-btn")];
      }
      effects := effects + [Toast("Varrendo a rede por novos dispositivos...", "info"),
        Request("POST", ApiBase + "/scan-rede", NoBody)];
      if Succeeded(scan) {
        ReloadAfterScan(reload);
      } else {
        effects := effects + [Toast("Erro ao escanear.", "error")];
      }
      if hasButton {
        refreshDisabled := false;
        effects := effects + [Enable("refresh-btn")];
      }
    }

    /** The rest of the `try` block once the scan answered ok: reload the list, then the success toast. */
    method ReloadAfterScan(reload: Option<seq<ClientAsset>>)
      modifies this`effects, this`listaGlobalAtivos, this`body
      ensures effects == old(effects) + [Reload, Toast("Inventário atualizado com sucesso!", "success")]
      ensures reload.Some? ==> listaGlobalAtivos == reload.value && body == Rendered(reload.value, RenderRow, EmptyRow)
      ensures reload.None? ==> listaGlobalAtivos == old(listaGlobalAtivos) && body == old(body)
    {
      effects := effects + [Reload];
      Load(reload);
      effects := effects + [Toast("Inventário atualizado com sucesso!", "success")];
    }

    /** `abrirModalAdicionar`: an empty hidden id, so that the next save POSTs. */
    method AddClick()
      modifies this`assetIdDatabase, this`effects
      ensures assetIdDatabase == "" && effects == old(effects) + [OpenModal("asset-modal")]
    {
      assetIdDatabase := "";
      effects := effects + [OpenModal("asset-modal")];
    }

    /** `prepararEdicao(id)`: a no-op when no listed asset has exactly that id. */
    method PrepararEdicao(id: int, hasCondition: bool, hasType: bool) returns (form: Option<InventarioForm>)
      modifies this`assetIdDatabase, this`effects
      ensures FindById(listaGlobalAtivos, id).None? ==>
        form.None? && assetIdDatabase == old(assetIdDatabase) && effects == old(effects)
      ensures FindById(listaGlobalAtivos, id).Some? ==> var a := FindById(listaGlobalAtivos, id).value;
        form == Some(EditForm(a, hasCondition, hasType)) && assetIdDatabase == IntToString(a.id)
        && effects == old(effects) + [OpenModal("asset-modal")]
    {
      var ativo := FindById(listaGlobalAtivos, id);
      if ativo.None? {
        return None;
      }
      assetIdDatabase := IntToString(ativo.value.id);
      form := Some(EditForm(ativo.value, hasCondition, hasType));
      effects := effects + [OpenModal("asset-modal")];
    }

    /** `prepararExclusao(id, nome)`: the id goes into the hidden input. */
    method PrepararExclusao(id: int)
      modifies this`deleteTarget, this`effects
      ensures deleteTarget == IntToString(id) && effects == old(effects) + [OpenModal("delete-confirm-modal")]
    {
      deleteTarget := IntToString(id);
      effects := effects + [OpenModal("delete-confirm-modal")];
    }

    /** `salvarAtivo`: on failure the modals stay open and nothing reloads. */
    method SalvarAtivo(form: InventarioForm, resp: Response)
      modifies this`effects
      ensures Succeeded(resp) ==> effects == old(effects) + [SaveRequest(form, assetIdDatabase), CloseModal("all"),
        Reload, Toast(if assetIdDatabase != "" then "Ativo atualizado!" else "Ativo criado!", "success")]
      ensures !Succeeded(resp) ==> effects == old(effects) + [SaveRequest(form, assetIdDatabase), Toast("Erro ao salvar.", "error")]
    {
      effects := effects + [SaveRequest(form, assetIdDatabase)];
      if Succeeded(resp) {
        effects := effects + [CloseModal("all"), Reload,
          Toast(if assetIdDatabase != "" then "Ativo atualizado!" else "Ativo criado!", "success")];
      } else {
        effects := effects + [Toast("Erro ao salvar.", "error")];
      }
    }

    /** `confirmarExclusao`: any completed response, even a 404, closes the modals and reloads. */
    method ConfirmarExclusao(resp: Response)
      modifies this`effects
      ensures resp.Answered? ==> effects == old(effects) + [Request("DELETE", ApiBase + "/ativos/" + deleteTarget, NoBody),
        CloseModal("all"), Reload, Toast("Excluído!", "success")]
      ensures resp.Rejected? ==> effects == old(effects) + [Request("DELETE", ApiBase + "/ativos/" + deleteTarget, NoBody)]
    {
      effects := effects + [Request("DELETE", ApiBase + "/ativos/" + deleteTarget, NoBody)];
      if resp.Answered? {
        effects := effects + [CloseModal("all"), Reload, Toast("Excluído!", "success")];
      }
    }
  }
}
