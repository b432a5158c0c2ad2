/**
 * `database.js`: the pages that read the SQLite-backed API directly. It
 * fills the statistics cards, the seven-column asset table, a status
 * doughnut and a five-asset bar chart, and picks what to load from the page
 * path.
 */
module DashboardData {
  import opened Common
  import opened Client
  import Charts
  import Api

  // ---------------------------------------------------------------- cards

  /** The members of the `/api/estatisticas` JSON; `None` is a missing or null member. */
  datatype StatsJson = StatsJson(
    totalAtivos: Option<int>,
    ativosOnline: Option<int>,
    ativosOffline: Option<int>,
    totalUsuarios: Option<int>)

  /** The JSON the server sends for its own statistics record. */
  function FromServer(s: Api.Stats): StatsJson {
    StatsJson(Some(s.totalAtivos), Some(s.ativosOnline), Some(s.ativosOffline), Some(s.totalUsuarios))
  }

  /** `valor || 0`: a missing value shows 0, and so does 0 itself. */
  function CardValue(v: Option<int>): (r: int)
    ensures v.Some? ==> r == v.value
    ensures v.None? ==> r == 0
  {
    if v.Some? && v.value != 0 then v.value else 0
  }

  /** The element ids `atualizarCards` walks, in order, with the value each gets. */
  function CardEntries(stats: StatsJson): seq<(string, int)> {
    [("total-ativos", CardValue(stats.totalAtivos)), ("ativos-online", CardValue(stats.ativosOnline)),
     ("ativos-offline", CardValue(stats.ativosOffline)), ("total-usuarios", CardValue(stats.totalUsuarios))]
  }

  /**
   * The card texts after writing `entries` in order; `cards` maps the ids of
   * the elements the page has (`getElementById` finds them) to their text,
   * and an id the page lacks is skipped.
   */
  function Assign(cards: map<string, int>, entries: seq<(string, int)>): (r: map<string, int>)
    ensures r.Keys == cards.Keys
    decreases |entries|
  {
    if entries == [] then cards
    else
      var before := Assign(cards, entries[..|entries| - 1]);
      var e := entries[|entries| - 1];
      if e.0 in before then before[e.0 := e.1] else before
  }

  predicate DistinctIds(entries: seq<(string, int)>) {
    forall i, j :: 0 <= i < j < |entries| ==> entries[i].0 != entries[j].0
  }

  /** Each present card named once shows its entry's value; every other card keeps its text. */
  lemma {:induction false} AssignSpec(cards: map<string, int>, entries: seq<(string, int)>)
    requires DistinctIds(entries)
    ensures forall k :: 0 <= k < |entries| && entries[k].0 in cards ==> Assign(cards, entries)[entries[k].0] == entries[k].1
    ensures forall id :: id in cards && (forall k :: 0 <= k < |entries| ==> entries[k].0 != id) ==>
      Assign(cards, entries)[id] == cards[id]
    decreases |entries|
  {
    if entries != [] {
      var init := entries[..|entries| - 1];
      assert DistinctIds(init);
      AssignSpec(cards, init);
    }
  }

  /** With all four cards on the page, the cards show exactly the server's statistics. */
  lemma CardsShowServerStatistics(cards: map<string, int>, s: Api.Stats)
    requires "total-ativos" in cards && "ativos-online" in cards && "ativos-offline" in cards && "total-usuarios" in cards
    ensures var r := Assign(cards, CardEntries(FromServer(s)));
      r["total-ativos"] == s.totalAtivos && r["ativos-online"] == s.ativosOnline
      && r["ativos-offline"] == s.ativosOffline && r["total-usuarios"] == s.totalUsuarios
  {
    var e := CardEntries(FromServer(s));
    assert DistinctIds(e);
    AssignSpec(cards, e);
    assert e[0].0 == "total-ativos" && e[1].0 == "ativos-online" && e[2].0 == "ativos-offline" && e[3].0 == "total-usuarios";
  }

  // ---------------------------------------------------------------- client-side statistics

  /** `ativo.status && ativo.status.toLowerCase() === 'online'`. */
  predicate OnlineAnyCase(a: ClientAsset) {
    Present(a.status) && Lower(a.status.value) == "online"
  }

  /** `ativo.status && ativo.status.toLowerCase() === 'offline'`. */
  predicate OfflineAnyCase(a: ClientAsset) {
    Present(a.status) && Lower(a.status.value) == "offline"
  }

  /** The three cards `calcularEstatisticas` writes, in order. */
  function StatisticsEntries(ativos: seq<ClientAsset>): seq<(string, int)> {
    [("total-ativos", |ativos|), ("ativos-online", Count(ativos, OnlineAnyCase)),
     ("ativos-offline", Count(ativos, OfflineAnyCase))]
  }

  /** The `forEach` of `calcularEstatisticas`: other statuses count in neither counter. */
  method CountByStatus(ativos: seq<ClientAsset>) returns (online: nat, offline: nat)
    ensures online == Count(ativos, OnlineAnyCase) && offline == Count(ativos, OfflineAnyCase)
    ensures online + offline <= |ativos|
  {
    online, offline := 0, 0;
    var i := 0;
    while i < |ativos|
      invariant 0 <= i <= |ativos|
      invariant online == Count(ativos[..i], OnlineAnyCase) && offline == Count(ativos[..i], OfflineAnyCase)
    {
      CountPrefixStep(ativos, i, OnlineAnyCase);
      CountPrefixStep(ativos, i, OfflineAnyCase);
      var a := ativos[i];
      if a.status.Some? && a.status.value != "" && Lower(a.status.value) == "online" {
        online := online + 1;
      } else if a.status.Some? && a.status.value != "" && Lower(a.status.value) == "offline" {
        offline := offline + 1;
      }
      i := i + 1;
    }
    assert ativos[..|ativos|] == ativos;
    CountDisjoint(ativos, OnlineAnyCase, OfflineAnyCase);
  }

  /** Every exactly-'Online' asset is counted, so the page never shows fewer online assets than exist. */
  lemma ExactOnlineCounted(ativos: seq<ClientAsset>)
    ensures Count(ativos, Charts.IsOnline) <= Count(ativos, OnlineAnyCase)
    ensures Count(ativos, Charts.IsOffline) <= Count(ativos, OfflineAnyCase)
  {
    assert Lower("Online") == "online" && Lower("Offline") == "offline";
    CountMono(ativos, Charts.IsOnline, OnlineAnyCase);
    CountMono(ativos, Charts.IsOffline, OfflineAnyCase);
  }

  /**
   * Over the list `GET /api/ativos` returns, the client-side online count is
   * at least the server's, which compares case-sensitively.
   */
  lemma ClientCountsAtLeastServer(t: Storage.Table<Storage.Asset>, usuarios: Storage.Table<Storage.User>)
    requires t.Valid() && usuarios.Valid()
    ensures var ativos := ToClient(t.Listing());
      var s := Api.Estatisticas(t, usuarios);
      |ativos| == s.totalAtivos && s.ativosOnline <= Count(ativos, OnlineAnyCase)
      && s.ativosOffline <= Count(ativos, OfflineAnyCase)
  {
    Charts.KpisAgreeWithStatistics(t, usuarios);
    ExactOnlineCounted(ToClient(t.Listing()));
  }

  // ---------------------------------------------------------------- charts

  /** `ativo.status === 'Online'`. */
  predicate OnlineExact(a: ClientAsset) {
    a.status == Some("Online")
  }

  predicate NotOnlineExact(a: ClientAsset) {
    !OnlineExact(a)
  }

  /** The `forEach` of `atualizarGraficos`: anything but exact 'Online' counts as offline. */
  method CountForCharts(ativos: seq<ClientAsset>) returns (online: nat, offline: nat)
    ensures online == Count(ativos, OnlineExact) && offline == Count(ativos, NotOnlineExact)
    ensures online + offline == |ativos|
  {
    online, offline := 0, 0;
    var i := 0;
    while i < |ativos|
      invariant 0 <= i <= |ativos|
      invariant online == Count(ativos[..i], OnlineExact) && offline == Count(ativos[..i], NotOnlineExact)
    {
      CountPrefixStep(ativos, i, OnlineExact);
      CountPrefixStep(ativos, i, NotOnlineExact);
      if ativos[i].status == Some("Online") {
        online := online + 1;
      } else {
        offline := offline + 1;
      }
      i := i + 1;
    }
    assert ativos[..|ativos|] == ativos;
    CountComplement(ativos, OnlineExact, NotOnlineExact);
  }

  /** `criarGraficoPizza(online, offline)`: the two slices cover the whole list. */
  function PieChart(ativos: seq<ClientAsset>): (c: Charts.ChartData)
    ensures c.labels == ["Online", "Offline"] && |c.data| == 2
    ensures c.data[0] == Count(ativos, OnlineExact) && c.data[0] + c.data[1] == |ativos|
  {
    CountComplement(ativos, OnlineExact, NotOnlineExact);
    Charts.ChartData(["Online", "Offline"], [Count(ativos, OnlineExact), Count(ativos, NotOnlineExact)])
  }

  /** A bar chart: one label (a name, possibly null) and one value per bar. */
  datatype BarChart = BarChart(labels: seq<Option<string>>, values: seq<nat>)

  /** `a.status === 'Online' ? 1 : 0`, element by element. */
  function BarValues(ativos: seq<ClientAsset>): (r: seq<nat>)
    ensures |r| == |ativos|
    ensures forall k :: 0 <= k < |ativos| ==> (r[k] == 1 <==> OnlineExact(ativos[k])) && r[k] <= 1
  {
    if ativos == [] then [] else [if OnlineExact(ativos[0]) then 1 else 0] + BarValues(ativos[1..])
  }

  /** The bars add up to the number of online assets among them. */
  lemma {:induction false} SumBarValues(ativos: seq<ClientAsset>)
    ensures Sum(BarValues(ativos)) == Count(ativos, OnlineExact)
  {
    if ativos != [] {
      var r := BarValues(ativos);
      assert r[1..] == BarValues(ativos[1..]);
      SumBarValues(ativos[1..]);
    }
  }

  /** The number of bars: `slice(0, 5)` keeps at most five. */
  function BarCount(n: nat): (m: nat)
    ensures m <= 5 && m <= n && (m < 5 ==> m == n)
  {
    if n < 5 then n else 5
  }

  /** `criarGraficoBarras`: the first five assets in order, their names and a 1 for each online one. */
  function BarChartOf(ativos: seq<ClientAsset>): (c: BarChart)
    ensures |c.labels| == |c.values| == BarCount(|ativos|)
    ensures forall k :: 0 <= k < |c.labels| ==> c.labels[k] == ativos[k].nome
    ensures forall k :: 0 <= k < |c.values| ==> (c.values[k] == 1 <==> OnlineExact(ativos[k])) && c.values[k] <= 1
    ensures Sum(c.values) == Count(ativos[..BarCount(|ativos|)], OnlineExact)
  {
    var first := ativos[..BarCount(|ativos|)];
    SumBarValues(first);
    BarChart(seq(|first|, k requires 0 <= k < |first| => first[k].nome), BarValues(first))
  }

  // ---------------------------------------------------------------- table

  /** The placeholder row for an empty list, spanning the seven columns. */
  const EmptyRow: Row := Placeholder(7, "Nenhum ativo encontrado")

  /** The status badge: green `badge-success` or red `badge-danger`. */
  function StatusBadge(status: Option<string>): Cell {
    OnlineBadge(status, "badge badge-success", "badge badge-danger")
  }

  /** `ativo.id || '-'`: id 0 is falsy. */
  function IdText(id: int): (t: string)
    ensures t == "-" <==> id == 0
  {
    if id != 0 then IntToString(id) else "-"
  }

  /**
   * One table row of `atualizarTabela`; `formatarData` is locale-dependent
   * and is a parameter.
   */
  function RenderRow(a: ClientAsset, formatarData: string -> string): (r: Row)
    ensures r.AssetRow? && r.id == a.id && |r.cells| == 7
    ensures r.cells[0].text == IdText(a.id)
    ensures r.cells[1].text == OrElse(a.nome, "-") && r.cells[2].text == OrElse(a.ip, "-")
    ensures r.cells[3].text == OrElse(a.mac, "-")
    ensures r.cells[4] == StatusBadge(a.status)
    ensures r.cells[5].text == OrElse(a.condicao, "-")
    ensures r.cells[6].text == if Present(a.dataInicio) then formatarData(a.dataInicio.value) else "-"
  {
    AssetRow(a.id, [Cell(IdText(a.id), ""), Cell(OrElse(a.nome, "-"), ""), Cell(OrElse(a.ip, "-"), ""),
      Cell(OrElse(a.mac, "-"), ""), StatusBadge(a.status), Cell(OrElse(a.condicao, "-"), ""),
      Cell(if Present(a.dataInicio) then formatarData(a.dataInicio.value) else "-", "")])
  }

  function RowRenderer(formatarData: string -> string): ClientAsset -> Row {
    (a: ClientAsset) => RenderRow(a, formatarData)
  }

  // ---------------------------------------------------------------- page dispatch

  /** A loader the `DOMContentLoaded` handler starts. */
  datatype Load = LoadStatistics | LoadAssets | LoadOnlineAssets

  /** The loaders started for a page path, in order (the 30-second polling is not modelled). */
  function Dispatch(path: string): (r: seq<Load>)
    ensures |r| >= 1 && r[0] == LoadStatistics
    ensures LoadAssets in r <==> (Contains(path, "ativosnarede")
      || (!Contains(path, "ativosonline") && (Contains(path, "dashboard") || Contains(path, "home"))))
    ensures LoadOnlineAssets in r <==> !Contains(path, "ativosnarede") && Contains(path, "ativosonline")
    ensures !(LoadAssets in r && LoadOnlineAssets in r)
  {
    [LoadStatistics] +
      if Contains(path, "ativosnarede") then [LoadAssets]
      else if Contains(path, "ativosonline") then [LoadOnlineAssets]
      else if Contains(path, "dashboard") || Contains(path, "home") then [LoadAssets, LoadStatistics]
      else []
  }

  predicate IsStatistics(l: Load) {
    l.LoadStatistics?
  }

  /** A dashboard or home page fetches the statistics twice. */
  lemma DashboardLoadsStatisticsTwice(path: string)
    requires !Contains(path, "ativosnarede") && !Contains(path, "ativosonline")
    requires Contains(path, "dashboard") || Contains(path, "home")
    ensures Count(Dispatch(path), IsStatistics) == 2
  {
    var r := Dispatch(path);
    assert r == [LoadStatistics, LoadAssets, LoadStatistics];
    assert r[1..] == [LoadAssets, LoadStatistics] && r[1..][1..] == [LoadStatistics] && r[1..][1..][1..] == [];
    assert Count([LoadStatistics], IsStatistics) == 1;
    assert Count([LoadAssets, LoadStatistics], IsStatistics) == 1;
  }

  // ---------------------------------------------------------------- the page

  /**
   * A page including `database.js`. Which of the table, the two chart
   * canvases and the cards the page has is fixed when it is built; the
   * effect log records the requests in order.
   */
  class DatabasePage {
    const hasTable: bool
    const hasPie: bool
    const hasBar: bool
    var cards: map<string, int>
    var body: seq<Row>
    var pie: Option<Charts.ChartData>
    var bar: Option<BarChart>
    var effects: seq<Effect>

    constructor (hasTable: bool, hasPie: bool, hasBar: bool, cards: map<string, int>)
      ensures this.hasTable == hasTable && this.hasPie == hasPie && this.hasBar == hasBar
      ensures this.cards == cards && body == [] && pie == None && bar == None && effects == []
    {
      this.hasTable := hasTable;
      this.hasPie := hasPie;
      this.hasBar := hasBar;
      this.cards := cards;
      body := [];
      pie := None;
      bar := None;
      effects := [];
    }

    /** The card texts after writing `entries` in order. */
    method WriteCards(entries: seq<(string, int)>)
      modifies this`cards
      ensures cards == Assign(old(cards), entries)
    {
      var before := cards;
      var i := 0;
      while i < |entries|
        invariant 0 <= i <= |entries|
        invariant cards == Assign(before, entries[..i])
      {
        assert entries[..i + 1][..i] == entries[..i];
        var id := entries[i].0;
        if id in cards {
          cards := cards[id := entries[i].1];
        }
        i := i + 1;
      }
      assert entries[..|entries|] == entries;
    }

    /** `atualizarCards`. */
    method AtualizarCards(stats: StatsJson)
      modifies this`cards
      ensures cards == Assign(old(cards), CardEntries(stats))
    {
      WriteCards(CardEntries(stats));
    }

    /** `calcularEstatisticas`: a null or empty list leaves the cards alone. */
    method CalcularEstatisticas(ativos: Option<seq<ClientAsset>>)
      modifies this`cards
      ensures ativos.None? || ativos.value == [] ==> cards == old(cards)
      ensures ativos.Some? && ativos.value != [] ==> cards == Assign(old(cards), StatisticsEntries(ativos.value))
    {
      if ativos.None? || |ativos.value| == 0 {
        return;
      }
      var online, offline := CountByStatus(ativos.value);
      WriteCards([("total-ativos", |ativos.value|), ("ativos-online", online), ("ativos-offline", offline)]);
    }

    /** `atualizarTabela`: nothing without a table body. */
    method AtualizarTabela(ativos: seq<ClientAsset>, formatarData: string -> string)
      modifies this`body
      ensures hasTable ==> body == Rendered(ativos, RowRenderer(formatarData), EmptyRow)
      ensures !hasTable ==> body == old(body)
    {
      if !hasTable {
        return;
      }
      body := RenderRows(ativos, RowRenderer(formatarData), EmptyRow);
    }

    /** `atualizarGraficos`: each chart is redrawn only when its canvas exists. */
    method AtualizarGraficos(ativos: seq<ClientAsset>)
      modifies this`pie, this`bar
      ensures pie == if hasPie then Some(PieChart(ativos)) else old(pie)
      ensures bar == if hasBar then Some(BarChartOf(ativos)) else old(bar)
    {
      var online, offline := CountForCharts(ativos);
      if hasPie {
        pie := Some(Charts.ChartData(["Online", "Offline"], [online, offline]));
      }
      if hasBar {
        var first := ativos[..BarCount(|ativos|)];
        var values := BarValues(first);
        bar := Some(BarChart(seq(|first|, k requires 0 <= k < |first| => first[k].nome), values));
      }
    }

    /**
     * `carregarAtivos`; `fetched` is the parsed body of `GET /api/ativos`,
     * `None` when the request or the parse failed (the error is only logged).
     */
    method CarregarAtivos(fetched: Option<seq<ClientAsset>>, formatarData: string -> string)
      modifies this`effects, this`body, this`pie, this`bar, this`cards
      ensures effects == old(effects) + [Request("GET", "/api/ativos", NoBody)]
      ensures fetched.None? ==> body == old(body) && pie == old(pie) && bar == old(bar) && cards == old(cards)
      ensures fetched.Some? ==> var s := fetched.value;
        && body == (if hasTable then Rendered(s, RowRenderer(formatarData), EmptyRow) else old(body))
        && pie == (if hasPie then Some(PieChart(s)) else old(pie))
        && bar == (if hasBar then Some(BarChartOf(s)) else old(bar))
        && cards == (if s == [] then old(cards) else Assign(old(cards), StatisticsEntries(s)))
    {
      effects := effects + [Request("GET", "/api/ativos", NoBody)];
      if fetched.Some? {
        AtualizarTabela(fetched.value, formatarData);
        AtualizarGraficos(fetched.value);
        CalcularEstatisticas(fetched);
      }
    }

    /** `carregarAtivosOnline`: the table and the cards, no charts. */
    method CarregarAtivosOnline(fetched: Option<seq<ClientAsset>>, formatarData: string -> string)
      modifies this`effects, this`body, this`cards
      ensures effects == old(effects) + [Request("GET", "/api/ativos-online", NoBody)]
      ensures fetched.None? ==> body == old(body) && cards == old(cards)
      ensures fetched.Some? ==> var s := fetched.value;
        && body == (if hasTable then Rendered(s, RowRenderer(formatarData), EmptyRow) else old(body))
        && cards == (if s == [] then old(cards) else Assign(old(cards), StatisticsEntries(s)))
    {
      effects := effects + [Request("GET", "/api/ativos-online", NoBody)];
      if fetched.Some? {
        AtualizarTabela(fetched.value, formatarData);
        CalcularEstatisticas(fetched);
      }
    }

    /** `carregarEstatisticas`. */
    method CarregarEstatisticas(stats: Option<StatsJson>)
      modifies this`effects, this`cards
      ensures effects == old(effects) + [Request("GET", "/api/estatisticas", NoBody)]
      ensures stats.None? ==> cards == old(cards)
      ensures stats.Some? ==> cards == Assign(old(cards), CardEntries(stats.value))
    {
      effects := effects + [Request("GET", "/api/estatisticas", NoBody)];
      if stats.Some? {
        AtualizarCards(stats.value);
      }
    }
  }
}
