/**
 * `charts.js`: the dashboard's counters, its availability percentage, the
 * status doughnut and the four-bucket device-type bar chart.
 */
module Charts {
  import opened Common
  import opened Storage
  import opened Client
  import Api

  // ---------------------------------------------------------------- KPIs

  predicate IsOnline(a: ClientAsset) {
    a.status == Some("Online")
  }

  predicate IsOffline(a: ClientAsset) {
    a.status == Some("Offline")
  }

  predicate InMaintenance(a: ClientAsset) {
    a.condicao == Some("Manutenção")
  }

  /** The counters of `carregarDadosDashboard`. */
  datatype Kpis = Kpis(total: nat, online: nat, offline: nat, manutencao: nat)

  /** `filter(...).length` for each strict comparison. */
  function ComputeKpis(ativos: seq<ClientAsset>): (k: Kpis)
    ensures k.total == |ativos|
    ensures k.online + k.offline <= k.total && k.manutencao <= k.total
    ensures k.online == |Filter(ativos, IsOnline)| && k.offline == |Filter(ativos, IsOffline)|
    ensures k.manutencao == |Filter(ativos, InMaintenance)|
  {
    CountDisjoint(ativos, IsOnline, IsOffline);
    CountIsFilterLength(ativos, IsOnline);
    CountIsFilterLength(ativos, IsOffline);
    CountIsFilterLength(ativos, InMaintenance);
    Kpis(|ativos|, Count(ativos, IsOnline), Count(ativos, IsOffline), Count(ativos, InMaintenance))
  }

  /** The dashboard counts what `obter_estatisticas` counts, over the list `GET /api/ativos` returns. */
  lemma KpisAgreeWithStatistics(t: Table<Asset>, usuarios: Table<User>)
    requires t.Valid() && usuarios.Valid()
    ensures var k := ComputeKpis(ToClient(t.Listing()));
      var s := Api.Estatisticas(t, usuarios);
      k.total == s.totalAtivos && k.online == s.ativosOnline && k.offline == s.ativosOffline
  {
    t.ListingLength();
    CountToClient(t.Listing(), IsOnline, Api.IsOnline);
    CountToClient(t.Listing(), IsOffline, Api.IsOffline);
  }

  /** `disponibilidade`: the online share in percent, 0 for an empty list. */
  function Disponibilidade(online: nat, total: nat): (r: real)
    ensures total == 0 ==> r == 0.0
    ensures online <= total ==> 0.0 <= r <= 100.0
    ensures 0 < total && online == total ==> r == 100.0
  {
    if total > 0 then (online as real / total as real) * 100.0 else 0.0
  }

  /** A chart's labels and data, position by position. */
  datatype ChartData = ChartData(labels: seq<string>, data: seq<nat>)

  /** `desenharGraficoStatus`. */
  function StatusChart(k: Kpis): (c: ChartData)
    ensures c.labels == ["Online", "Offline", "Manutenção"] && c.data == [k.online, k.offline, k.manutencao]
  {
    ChartData(["Online", "Offline", "Manutenção"], [k.online, k.offline, k.manutencao])
  }

  // ---------------------------------------------------------------- device-type buckets

  /** The `s2[0-9]` alternative, spelled out. */
  const GalaxyS2x: seq<string> := ["s20", "s21", "s22", "s23", "s24", "s25", "s26", "s27", "s28", "s29"]

  const SmartphoneKeys: seq<string> := ["mobile", "celular", "iphone", "android", "galaxy", "samsung", "xiaomi",
    "motorola", "redmi", "a54"] + GalaxyS2x + ["pixel"]

  const NotebookKeys: seq<string> := ["notebook", "laptop", "macbook", "thinkpad", "latitude", "inspiron", "ideapad",
    "zenbook", "vivobook"]

  const ComputerKeys: seq<string> := ["computador", "pc", "desktop", "windows", "linux", "mac", "optiplex", "vostro",
    "torre", "all-in-one", "cas"]

  /** The three regular expressions in the order they are tried. */
  const TypeGroups: seq<Group> := [Group(SmartphoneKeys, "Smartphones"), Group(NotebookKeys, "Notebooks"),
    Group(ComputerKeys, "Computadores")]

  /** The bar chart's fixed labels. */
  const TypeLabels: seq<string> := ["Smartphones", "Notebooks", "Computadores", "Outros"]

  /** `(a.nome + " " + (a.tipo || "")).toLowerCase()`: a null name prints as "null". */
  function ClassText(a: ClientAsset): string {
    Lower(JsStr(a.nome) + " " + OrElse(a.tipo, ""))
  }

  /** The counter an asset increments: the first matching group, else 'Outros'. */
  function Bucket(a: ClientAsset): (b: string)
    ensures b in TypeLabels
  {
    Classify(ClassText(a), TypeGroups, "Outros")
  }

  function InBucket(b: string): ClientAsset -> bool {
    LabelIs(Bucket, b)
  }

  /** The bar chart's data, in the order of `TypeLabels`, zero counts included. */
  function TypeCounts(ativos: seq<ClientAsset>): (r: seq<nat>)
    ensures |r| == |TypeLabels| && Sum(r) == |ativos|
    ensures forall k :: 0 <= k < |r| ==> r[k] == Count(ativos, InBucket(TypeLabels[k]))
  {
    BucketsPartition(ativos);
    SumFour(Count(ativos, InBucket("Smartphones")), Count(ativos, InBucket("Notebooks")),
      Count(ativos, InBucket("Computadores")), Count(ativos, InBucket("Outros")));
    [Count(ativos, InBucket("Smartphones")), Count(ativos, InBucket("Notebooks")),
     Count(ativos, InBucket("Computadores")), Count(ativos, InBucket("Outros"))]
  }

  lemma SumFour(a: nat, b: nat, c: nat, d: nat)
    ensures Sum([a, b, c, d]) == a + b + c + d
  {
    assert [a, b, c, d][1..] == [b, c, d] && [b, c, d][1..] == [c, d] && [c, d][1..] == [d];
    assert Sum([d]) == d;
    assert Sum([c, d]) == c + d;
    assert Sum([b, c, d]) == b + c + d;
  }

  /** The bucket is what the `if`/`else if` chain over the three expressions picks. */
  lemma BucketChain(a: ClientAsset)
    ensures var t := ClassText(a);
      Bucket(a) == if MatchesAny(t, SmartphoneKeys) then "Smartphones"
        else if MatchesAny(t, NotebookKeys) then "Notebooks"
        else if MatchesAny(t, ComputerKeys) then "Computadores"
        else "Outros"
  {
    assert TypeGroups[0].keys == SmartphoneKeys && TypeGroups[1].keys == NotebookKeys
      && TypeGroups[2].keys == ComputerKeys;
  }

  /** Appending one asset adds one to its own bucket's count only. */
  lemma CountStep(ativos: seq<ClientAsset>, i: nat, b: string)
    requires i < |ativos|
    ensures Count(ativos[..i + 1], InBucket(b)) == Count(ativos[..i], InBucket(b)) + if Bucket(ativos[i]) == b then 1 else 0
  {
    assert ativos[..i + 1] == ativos[..i] + [ativos[i]];
    CountAppend(ativos[..i], [ativos[i]], InBucket(b));
  }

  /** Every asset falls in exactly one bucket, so the four counters add up to the list length. */
  lemma BucketsPartition(ativos: seq<ClientAsset>)
    ensures Count(ativos, InBucket("Smartphones")) + Count(ativos, InBucket("Notebooks"))
      + Count(ativos, InBucket("Computadores")) + Count(ativos, InBucket("Outros")) == |ativos|
  {
    CountLabels(ativos, Bucket, "Smartphones", "Notebooks", "Computadores", "Outros");
  }

  /**
   * `desenharGraficoTipos`: one pass over the list, one counter incremented
   * per asset by the first regular expression that matches.
   */
  method DesenharGraficoTipos(ativos: seq<ClientAsset>) returns (chart: ChartData)
    ensures chart == ChartData(TypeLabels, TypeCounts(ativos))
  {
    var smartphones, notebooks, computadores, outros := 0, 0, 0, 0;
    var i := 0;
    while i < |ativos|
      invariant 0 <= i <= |ativos|
      invariant smartphones == Count(ativos[..i], InBucket("Smartphones"))
      invariant notebooks == Count(ativos[..i], InBucket("Notebooks"))
      invariant computadores == Count(ativos[..i], InBucket("Computadores"))
      invariant outros == Count(ativos[..i], InBucket("Outros"))
    {
      var a := ativos[i];
      CountStep(ativos, i, "Smartphones");
      CountStep(ativos, i, "Notebooks");
      CountStep(ativos, i, "Computadores");
      CountStep(ativos, i, "Outros");
      BucketChain(a);
      var texto := ClassText(a);
      if MatchesAny(texto, SmartphoneKeys) {
        smartphones := smartphones + 1;
      } else if MatchesAny(texto, NotebookKeys) {
        notebooks := notebooks + 1;
      } else if MatchesAny(texto, ComputerKeys) {
        computadores := computadores + 1;
      } else {
        outros := outros + 1;
      }
      i := i + 1;
    }
    assert ativos[..|ativos|] == ativos;
    chart := ChartData(TypeLabels, [smartphones, notebooks, computadores, outros]);
  }

  /** Notebook keywords are tried before the computer group's "mac": a MacBook is a notebook. */
  lemma MacbookIsNotebook(a: ClientAsset)
    requires Contains(ClassText(a), "macbook") && !MatchesAny(ClassText(a), SmartphoneKeys)
    ensures Bucket(a) == "Notebooks"
  {
    BucketChain(a);
    assert NotebookKeys[2] == "macbook";
  }

  /** Smartphone keywords come first: a Samsung notebook counts as a smartphone. */
  lemma SamsungNotebookIsSmartphone(a: ClientAsset)
    requires Contains(ClassText(a), "samsung") && Contains(ClassText(a), "notebook")
    ensures Bucket(a) == "Smartphones"
  {
    BucketChain(a);
    assert SmartphoneKeys[5] == "samsung";
  }

  /** Any Galaxy S20 to S29 model number is a smartphone. */
  lemma GalaxySModelIsSmartphone(a: ClientAsset, model: string)
    requires model in GalaxyS2x && Contains(ClassText(a), model)
    ensures Bucket(a) == "Smartphones"
  {
    BucketChain(a);
    assert model in SmartphoneKeys;
  }

  /** Text with none of the keywords is counted under 'Outros'. */
  lemma NoKeywordIsOther(a: ClientAsset)
    requires forall k :: k in SmartphoneKeys + NotebookKeys + ComputerKeys ==> !Contains(ClassText(a), k)
    ensures Bucket(a) == "Outros"
  {
    BucketChain(a);
    forall k | k in SmartphoneKeys ensures !Contains(ClassText(a), k) {
      assert k in SmartphoneKeys + NotebookKeys + ComputerKeys;
    }
    forall k | k in NotebookKeys ensures !Contains(ClassText(a), k) {
      assert k in SmartphoneKeys + NotebookKeys + ComputerKeys;
    }
    forall k | k in ComputerKeys ensures !Contains(ClassText(a), k) {
      assert k in SmartphoneKeys + NotebookKeys + ComputerKeys;
    }
  }
}
