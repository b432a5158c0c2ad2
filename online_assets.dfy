/**
 * `assets.js`: the "Ativos Online" page. It renders the online assets with
 * status and condition badges, re-checks connectivity on request, and hides
 * the rendered rows whose text does not contain the search term.
 */
module OnlineAssets {
  import opened Common
  import opened Client

  const ApiBase: string := "http://127.0.0.1:5000/api"

  /** The placeholder row for a null or empty list. */
  const EmptyRow: Row := Placeholder(6, "Nenhum ativo online encontrado no momento.")

  /** The status badge: always the online class, with the raw status text (`null` printed as such). */
  function StatusBadge(status: Option<string>): (c: Cell)
    ensures c.cls == "badge badge-online"
    ensures status.Some? ==> c.text == status.value
  {
    Cell(JsStr(status), "badge badge-online")
  }

  /** The condition badge: three known conditions get their own class, anything else the generic one. */
  function ConditionBadge(condicao: Option<string>): (c: Cell)
    ensures condicao == Some("Disponível") <==> c == Cell("Disponível", "badge badge-disponivel")
    ensures condicao == Some("Manutenção") <==> c == Cell("Manutenção", "badge badge-manutencao")
    ensures condicao == Some("Alocado") <==> c == Cell("Alocado", "badge badge-alocado")
    ensures condicao !in {Some("Disponível"), Some("Manutenção"), Some("Alocado")} ==>
      c == Cell(OrElse(condicao, "-"), "badge")
  {
    if condicao == Some("Disponível") then Cell("Disponível", "badge badge-disponivel")
    else if condicao == Some("Manutenção") then Cell("Manutenção", "badge badge-manutencao")
    else if condicao == Some("Alocado") then Cell("Alocado", "badge badge-alocado")
    else Cell(OrElse(condicao, "-"), "badge")
  }

  /** One row: name, MAC, IP ('N/A' when falsy), the two badges and the inert actions cell. */
  function RenderRow(a: ClientAsset): (r: Row)
    ensures r.AssetRow? && r.id == a.id && |r.cells| == 6
    ensures r.cells[0].text == OrElse(a.nome, "N/A") && r.cells[1].text == OrElse(a.mac, "N/A")
    ensures r.cells[2].text == OrElse(a.ip, "N/A")
    ensures r.cells[3] == StatusBadge(a.status) && r.cells[4] == ConditionBadge(a.condicao)
    ensures r.cells[5].text == ""
  {
    AssetRow(a.id, [Cell(OrElse(a.nome, "N/A"), "asset-name"), Cell(OrElse(a.mac, "N/A"), "asset-mac"),
      Cell(OrElse(a.ip, "N/A"), "asset-id"), StatusBadge(a.status), ConditionBadge(a.condicao),
      Cell("", "asset-actions")])
  }

  /** The table body for a list that may be null. */
  function Table(ativos: Option<seq<ClientAsset>>): (r: seq<Row>)
    ensures ativos.None? || ativos.value == [] ==> r == [EmptyRow]
    ensures ativos.Some? && ativos.value != [] ==> r == Rendered(ativos.value, RenderRow, EmptyRow)
  {
    if ativos.None? then [EmptyRow] else Rendered(ativos.value, RenderRow, EmptyRow)
  }

  // ---------------------------------------------------------------- search over rendered rows

  /** A row's `innerText`: its cells' texts separated by tabs. */
  function CellsText(cells: seq<Cell>): string {
    if cells == [] then ""
    else if |cells| == 1 then cells[0].text
    else cells[0].text + "\t" + CellsText(cells[1..])
  }

  function RowText(r: Row): string {
    match r
    case Placeholder(_, text) => text
    case AssetRow(_, cells) => CellsText(cells)
  }

  /** `text.includes(term)` on both lowercased. */
  predicate RowVisible(r: Row, term: string) {
    Contains(Lower(RowText(r)), Lower(term))
  }

  /** Whatever a cell's lowercased text contains, the row's lowercased text contains too. */
  lemma {:induction false} CellMatchInRow(cells: seq<Cell>, k: nat, t: string)
    requires k < |cells| && Contains(Lower(cells[k].text), t)
    ensures Contains(Lower(CellsText(cells)), t)
    decreases |cells|
  {
    if |cells| == 1 {
    } else {
      var rest := "\t" + CellsText(cells[1..]);
      assert CellsText(cells) == cells[0].text + rest;
      LowerAppend(cells[0].text, rest);
      if k == 0 {
        ContainsAppend(Lower(cells[0].text), Lower(rest), t);
      } else {
        CellMatchInRow(cells[1..], k - 1, t);
        LowerAppend("\t", CellsText(cells[1..]));
        ContainsPrepend(Lower("\t"), Lower(CellsText(cells[1..])), t);
        ContainsPrepend(Lower(cells[0].text), Lower(rest), t);
      }
    }
  }

  /** A term found in any cell, the name say, keeps the asset's row visible. */
  lemma CellMatchKeepsRowVisible(a: ClientAsset, k: nat, term: string)
    requires k < 6 && Contains(Lower(RenderRow(a).cells[k].text), Lower(term))
    ensures RowVisible(RenderRow(a), term)
  {
    CellMatchInRow(RenderRow(a).cells, k, Lower(term));
  }

  /** An empty search shows every row. */
  lemma EmptyTermShowsAll(r: Row)
    ensures RowVisible(r, "")
  {
    ContainsEmpty(Lower(RowText(r)));
  }

  /** Which rows stay visible for a term, position by position. */
  function Visibility(body: seq<Row>, term: string): (v: seq<bool>)
    ensures |v| == |body|
    ensures forall k :: 0 <= k < |body| ==> v[k] == RowVisible(body[k], term)
  {
    seq(|body|, k requires 0 <= k < |body| => RowVisible(body[k], term))
  }

  /** What the scan handler does before the scan answers: disable the button, announce, then POST. */
  function ScanOpening(hasButton: bool, hasToast: bool): (r: seq<Effect>)
    ensures r != [] && r[|r| - 1] == Request("POST", ApiBase + "/scan-status", NoBody)
    ensures forall k :: 0 <= k < |r| - 1 ==> !r[k].Request?
    ensures Disable("refresh-btn-online") in r <==> hasButton
  {
    (if hasButton then [Disable("refresh-btn-online")] else [])
      + (if hasToast then [Toast("Verificando conectividade dos ativos...", "info")] else [])
      + [Request("POST", ApiBase + "/scan-status", NoBody)]
  }

  /** What follows the scan's answer: the reload and a success toast, or the error toast alone. */
  function ScanOutcome(ok: bool, hasTable: bool, hasToast: bool): (r: seq<Effect>)
    ensures Request("GET", ApiBase + "/ativos-online", NoBody) in r <==> ok && hasTable
    ensures hasToast ==> r != [] && r[|r| - 1] == if ok then Toast("Status atualizados com sucesso!", "success")
      else Toast("Erro ao verificar status. Verifique o servidor.", "error")
    ensures !hasToast ==> forall e :: e in r ==> e.Request?
  {
    if ok then
      (if hasTable then [Request("GET", ApiBase + "/ativos-online", NoBody)] else [])
      + (if hasToast then [Toast("Status atualizados com sucesso!", "success")] else [])
    else if hasToast then [Toast("Erro ao verificar status. Verifique o servidor.", "error")]
    else []
  }

  /** How the page reload ended: the fetch or parse failed, or the JSON (possibly null) arrived. */
  datatype Loaded = LoadFailed | LoadedJson(ativos: Option<seq<ClientAsset>>)

  /**
   * The "Ativos Online" page. Whether it has the table body, the refresh
   * button and the global `showToast` is fixed when it is built.
   */
  class OnlineAssetsPage {
    const hasTable: bool
    const hasButton: bool
    const hasToast: bool
    var body: seq<Row>
    var visible: seq<bool>
    var buttonDisabled: bool
    var effects: seq<Effect>

    predicate Valid()
      reads this
    {
      |visible| == |body|
    }

    constructor (hasTable: bool, hasButton: bool, hasToast: bool)
      ensures this.hasTable == hasTable && this.hasButton == hasButton && this.hasToast == hasToast
      ensures body == [] && visible == [] && !buttonDisabled && effects == []
      ensures Valid()
    {
      this.hasTable := hasTable;
      this.hasButton := hasButton;
      this.hasToast := hasToast;
      body := [];
      visible := [];
      buttonDisabled := false;
      effects := [];
    }

    /** `renderizarTabelaOnline`: new rows start visible. */
    method RenderizarTabelaOnline(ativos: Option<seq<ClientAsset>>)
      modifies this`body, this`visible
      requires Valid()
      ensures Valid()
      ensures hasTable ==> body == Table(ativos) && forall k :: 0 <= k < |visible| ==> visible[k]
      ensures !hasTable ==> body == old(body) && visible == old(visible)
    {
      if !hasTable {
        return;
      }
      if ativos.None? || |ativos.value| == 0 {
        body := [EmptyRow];
      } else {
        body := RenderRows(ativos.value, RenderRow, EmptyRow);
      }
      visible := seq(|body|, k => true);
    }

    /** `carregarAtivosOnline`: without a table nothing is fetched; a failed load leaves the table. */
    method CarregarAtivosOnline(loaded: Loaded)
      modifies this`body, this`visible, this`effects
      requires Valid()
      ensures Valid()
      ensures !hasTable ==> effects == old(effects) && body == old(body) && visible == old(visible)
      ensures hasTable ==> effects == old(effects) + [Request("GET", ApiBase + "/ativos-online", NoBody)]
      ensures hasTable && loaded.LoadedJson? ==> body == Table(loaded.ativos) && forall k :: 0 <= k < |visible| ==> visible[k]
      ensures loaded.LoadFailed? ==> body == old(body) && visible == old(visible)
    {
      if !hasTable {
        return;
      }
      effects := effects + [Request("GET", ApiBase + "/ativos-online", NoBody)];
      if loaded.LoadedJson? {
        RenderizarTabelaOnline(loaded.ativos);
      }
    }

    /**
     * `atualizarOnlineComScan`: the button is disabled while the scan runs
     * and enabled again in `finally`; the table is reloaded only after an ok
     * scan response, and a reload that fails on its own still counts as a
     * success since `carregarAtivosOnline` swallows its errors.
     */
    method AtualizarOnlineComScan(scan: Response, reload: Loaded)
      modifies this`body, this`visible, this`effects, this`buttonDisabled
      requires Valid()
      ensures Valid()
      ensures hasButton ==> !buttonDisabled
      ensures !hasButton ==> buttonDisabled == old(buttonDisabled)
      ensures effects == old(effects) + ScanOpening(hasButton, hasToast) + ScanOutcome(Succeeded(scan), hasTable, hasToast)
        + (if hasButton then [Enable("refresh-btn-online")] else [])
      ensures Succeeded(scan) && hasTable && reload.LoadedJson? ==> body == Table(reload.ativos)
      ensures !Succeeded(scan) || reload.LoadFailed? ==> body == old(body) && visible == old(visible)
    {
      if hasButton {
        buttonDisabled := true;
      }
      effects := effects + ScanOpening(hasButton, hasToast);
      ghost var announced := effects;
      if Succeeded(scan) {
        ReloadAfterScan(reload);
      } else if hasToast {
        effects := effects + [Toast("Erro ao verificar status. Verifique o servidor.", "error")];
      }
      assert effects == announced + ScanOutcome(Succeeded(scan), hasTable, hasToast);
      if hasButton {
        buttonDisabled := false;
        effects := effects + [Enable("refresh-btn-online")];
      }
    }

    /** The rest of the `try` block once the scan answered ok: reload, then the success toast. */
    method ReloadAfterScan(reload: Loaded)
      modifies this`body, this`visible, this`effects
      requires Valid()
      ensures Valid()
      ensures effects == old(effects) + ScanOutcome(true, hasTable, hasToast)
      ensures hasTable && reload.LoadedJson? ==> body == Table(reload.ativos)
      ensures reload.LoadFailed? ==> body == old(body) && visible == old(visible)
    {
      CarregarAtivosOnline(reload);
      if hasToast {
        effects := effects + [Toast("Status atualizados com sucesso!", "success")];
      }
    }

    /** The `keyup` handler: each rendered row is shown iff its text contains the term. */
    method Buscar(term: string)
      modifies this`visible
      requires Valid()
      ensures Valid()
      ensures visible == Visibility(body, term)
    {
      var i := 0;
      while i < |body|
        invariant 0 <= i <= |body| && |visible| == |body|
        invariant forall k :: 0 <= k < i ==> visible[k] == RowVisible(body[k], term)
      {
        var text := Lower(RowText(body[i]));
        visible := visible[i := Contains(text, Lower(term))];
        i := i + 1;
      }
    }
  }
}
