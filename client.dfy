/**
 * What the browser pages share: the JSON asset objects `GET /api/ativos`
 * returns, the table rows a page renders, the outcome of an awaited `fetch`,
 * and the visible effects (requests, toasts, modals) a handler performs.
 */
module Client {
  import opened Common
  import opened Storage

  /**
   * One element of the JSON array of assets. A JavaScript `null` or missing
   * member is `None`; `id` is always present since it is the primary key.
   */
  datatype ClientAsset = ClientAsset(
    id: int,
    nome: Option<string>,
    ip: Option<string>,
    mac: Option<string>,
    status: Option<string>,
    condicao: Option<string>,
    tipo: Option<string>,
    dataInicio: Option<string>)

  /** The JSON object `dict(row)` produces for a row of `ativos_online`. */
  function FromRow(e: (int, Asset)): ClientAsset {
    ClientAsset(e.0, Some(e.1.nome), e.1.ip, e.1.mac, e.1.status, e.1.condicao, e.1.tipo, e.1.dataInicio)
  }

  /** The JSON array `jsonify([dict(r) for r in rows])` produces. */
  function ToClient(rows: seq<(int, Asset)>): (r: seq<ClientAsset>)
    ensures |r| == |rows|
    ensures forall k :: 0 <= k < |rows| ==> r[k] == FromRow(rows[k])
  {
    if rows == [] then [] else [FromRow(rows[0])] + ToClient(rows[1..])
  }

  /** Counting converted assets is counting rows with the composed condition. */
  lemma {:induction false} CountToClient(rows: seq<(int, Asset)>, p: ClientAsset -> bool, q: ((int, Asset)) -> bool)
    requires forall e :: q(e) == p(FromRow(e))
    ensures Count(ToClient(rows), p) == Count(rows, q)
  {
    if rows != [] {
      assert ToClient(rows)[1..] == ToClient(rows[1..]);
      CountToClient(rows[1..], p, q);
    }
  }

  // ---------------------------------------------------------------- rendering

  /** A table cell: its text and its CSS class ("" for none). */
  datatype Cell = Cell(text: string, cls: string)

  /** A row of a table body: the empty-list placeholder or one row of cells per asset. */
  datatype Row = Placeholder(colspan: nat, text: string) | AssetRow(id: int, cells: seq<Cell>)

  /** The table body a page's render function leaves: the placeholder alone, or one row per asset in order. */
  function Rendered(data: seq<ClientAsset>, render: ClientAsset -> Row, empty: Row): (r: seq<Row>)
    ensures data == [] ==> r == [empty]
    ensures data != [] ==> |r| == |data|
    ensures data != [] ==> forall k :: 0 <= k < |data| ==> r[k] == render(data[k])
  {
    if data == [] then [empty] else seq(|data|, k requires 0 <= k < |data| => render(data[k]))
  }

  /**
   * The body-clearing and `forEach` append loop every page's render function
   * runs: an empty list leaves only the placeholder.
   */
  method RenderRows(data: seq<ClientAsset>, render: ClientAsset -> Row, empty: Row) returns (body: seq<Row>)
    ensures body == Rendered(data, render, empty)
  {
    body := [];
    if |data| == 0 {
      body := [empty];
      return;
    }
    var i := 0;
    while i < |data|
      invariant 0 <= i <= |data|
      invariant |body| == i
      invariant forall k :: 0 <= k < i ==> body[k] == render(data[k])
    {
      body := body + [render(data[i])];
      i := i + 1;
    }
  }

  // ---------------------------------------------------------------- requests

  /** The body of a request. */
  datatype Payload =
    | NoBody
    | AssetPayload(members: seq<(string, string)>)
    | PasswordPayload(id: int, senhaAtual: string, novaSenha: string)

  /**
   * How an awaited `fetch` ended: `Rejected` is a network rejection, or, for a
   * handler that calls `.json()`, a body that is not JSON (both reject the
   * awaited promise and land in the same `catch`); `Answered` is a completed
   * response with its `ok` flag and members. Handlers that never read the
   * body (`confirmarExclusao` in inventario.js and the status scan in
   * assets.js) see any completed reply, JSON or not, as `Answered`, with no
   * members.
   */
  datatype Response =
    | Rejected(message: string)
    | Answered(ok: bool, erro: Option<string>, mensagem: Option<string>)

  /** The call completed with a 2xx status. */
  predicate Succeeded(resp: Response) {
    resp.Answered? && resp.ok
  }

  /** A visible effect of a handler, in the order the handler performs it. */
  datatype Effect =
    | Request(verb: string, url: string, payload: Payload)
    | Toast(message: string, kind: string)
    | OpenModal(modal: string)
    | CloseModal(modal: string)
    | ResetForm(form: string)
    | Reload
    | ReloadCharts
    | Disable(button: string)
    | Enable(button: string)

  /** What `dados.get(key)` finds in a request body built from string members. */
  function Member(members: seq<(string, string)>, key: string): (f: Field)
    ensures f.Absent? <==> forall k :: 0 <= k < |members| ==> members[k].0 != key
    ensures f.Str? ==> exists k :: 0 <= k < |members| && members[k] == (key, f.s)
    ensures !f.Null?
  {
    if members == [] then Absent
    else if members[0].0 == key then Str(members[0].1)
    else
      var f := Member(members[1..], key);
      assert forall k :: 1 <= k < |members| ==> members[k] == members[1..][k - 1];
      f
  }

  /** A key that occurs once is found with its own value. */
  lemma MemberAt(members: seq<(string, string)>, k: nat)
    requires k < |members|
    requires forall j :: 0 <= j < |members| && j != k ==> members[j].0 != members[k].0
    ensures Member(members, members[k].0) == Str(members[k].1)
  {
  }

  /**
   * The status badge of the pages that show two states: 'Online' with the
   * first class only for the exact status 'Online', 'Offline' with the
   * second class for anything else, a missing status included.
   */
  function OnlineBadge(status: Option<string>, onlineCls: string, offlineCls: string): (c: Cell)
    requires onlineCls != offlineCls
    ensures c == Cell("Online", onlineCls) <==> status == Some("Online")
    ensures c == Cell("Offline", offlineCls) <==> status != Some("Online")
  {
    if status == Some("Online") then Cell("Online", onlineCls) else Cell("Offline", offlineCls)
  }

  /** `list.find(a => a.id === id)`: the first asset with that id, if any. */
  function FindById(assets: seq<ClientAsset>, id: int): (r: Option<ClientAsset>)
    ensures r.Some? ==> r.value.id == id
    ensures r.Some? ==> exists k ::
      0 <= k < |assets| && assets[k] == r.value && forall j :: 0 <= j < k ==> assets[j].id != id
    ensures r.None? <==> forall a :: a in assets ==> a.id != id
  {
    if assets == [] then None
    else if assets[0].id == id then Some(assets[0])
    else
      var r := FindById(assets[1..], id);
      assert forall j :: 1 <= j < |assets| ==> assets[j] == assets[1..][j - 1];
      r
  }

  /** A member read from a JSON response that may be missing: `undefined` when concatenated. */
  function JsUndefined(o: Option<string>): string {
    if o.Some? then o.value else "undefined"
  }

  /** The requests among a list of effects. */
  function Requests(effects: seq<Effect>): (r: seq<Effect>)
    ensures forall e :: e in r <==> e in effects && e.Request?
  {
    Filter(effects, (e: Effect) => e.Request?)
  }
}
