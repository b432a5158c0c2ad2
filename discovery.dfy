/**
 * The network scanner `discovery.py`: name, operating-system and type
 * resolution for each live host, the upsert of each host into
 * `ativos_online`, and the pass that marks unseen rows Offline.
 *
 * nmap, `nbtstat` and `getmac` are not modelled: what they report for a host
 * is a `LiveHost` value, and the ping scan as a whole is a `PingScan`.
 */
module Discovery {
  import opened Common
  import opened Storage

  // ---------------------------------------------------------------- asset type

  const AssetTypeGroups: seq<Group> := [
    Group(["windows", "linux", "unix"], "Computador"),
    Group(["router", "openwrt", "cisco"], "Roteador/Firewall"),
    Group(["printer", "hp", "canon", "epson"], "Impressora"),
    Group(["server", "esxi", "hyper-v"], "Servidor"),
    Group(["switch", "network"], "Switch")
  ]

  const AssetTypeLabels: seq<string> :=
    ["Computador", "Roteador/Firewall", "Impressora", "Servidor", "Switch", "Outros"]

  /** `get_asset_type`: the keyword tests on the lower-cased guess, in source order. */
  function GetAssetType(osGuess: string): (r: string)
    ensures r in AssetTypeLabels
  {
    var g := Lower(osGuess);
    if Contains(g, "windows") || Contains(g, "linux") || Contains(g, "unix") then "Computador"
    else if Contains(g, "router") || Contains(g, "openwrt") || Contains(g, "cisco") then "Roteador/Firewall"
    else if Contains(g, "printer") || Contains(g, "hp") || Contains(g, "canon") || Contains(g, "epson") then "Impressora"
    else if Contains(g, "server") || Contains(g, "esxi") || Contains(g, "hyper-v") then "Servidor"
    else if Contains(g, "switch") || Contains(g, "network") then "Switch"
    else "Outros"
  }

  /** The `if` chain is the first-match classifier over the five keyword groups. */
  lemma GetAssetTypeIsFirstMatch(osGuess: string)
    ensures GetAssetType(osGuess) == Classify(Lower(osGuess), AssetTypeGroups, "Outros")
  {
    var g := Lower(osGuess);
    var gs := AssetTypeGroups;
    MatchesThree(g, "windows", "linux", "unix");
    MatchesThree(g, "router", "openwrt", "cisco");
    MatchesFour(g, "printer", "hp", "canon", "epson");
    MatchesThree(g, "server", "esxi", "hyper-v");
    MatchesTwo(g, "switch", "network");
    assert FirstMatchingFrom(g, gs, 5) == None;
    assert FirstMatchingFrom(g, gs, 4) == if MatchesAny(g, gs[4].keys) then Some(4) else None;
    assert FirstMatchingFrom(g, gs, 3) == if MatchesAny(g, gs[3].keys) then Some(3) else FirstMatchingFrom(g, gs, 4);
    assert FirstMatchingFrom(g, gs, 2) == if MatchesAny(g, gs[2].keys) then Some(2) else FirstMatchingFrom(g, gs, 3);
    assert FirstMatchingFrom(g, gs, 1) == if MatchesAny(g, gs[1].keys) then Some(1) else FirstMatchingFrom(g, gs, 2);
    assert FirstMatchingFrom(g, gs, 0) == if MatchesAny(g, gs[0].keys) then Some(0) else FirstMatchingFrom(g, gs, 1);
  }

  /** Group order decides ties: an operating-system word wins over every later group. */
  lemma ComputerWinsTies(osGuess: string)
    requires MatchesAny(Lower(osGuess), AssetTypeGroups[0].keys)
    ensures GetAssetType(osGuess) == "Computador"
  {
    MatchesThree(Lower(osGuess), "windows", "linux", "unix");
  }

  /** 'hp' makes an Impressora before any server keyword is looked at. */
  lemma HpBeforeServer(osGuess: string)
    requires Contains(Lower(osGuess), "hp")
    requires !MatchesAny(Lower(osGuess), AssetTypeGroups[0].keys)
    requires !MatchesAny(Lower(osGuess), AssetTypeGroups[1].keys)
    ensures GetAssetType(osGuess) == "Impressora"
  {
    var g := Lower(osGuess);
    MatchesThree(g, "windows", "linux", "unix");
    MatchesThree(g, "router", "openwrt", "cisco");
  }

  // ---------------------------------------------------------------- NetBIOS

  /** What running `nbtstat -A <ip>` gave: an exception (timeout, no such program) or stdout's lines. */
  datatype NbtstatRun = NbtstatFailed | NbtstatOutput(lines: seq<string>)

  /** The longest prefix of `s` without whitespace. */
  function TakeUntilSpace(s: string): (r: string)
    ensures |r| <= |s| && r == s[..|r|]
    ensures forall i :: 0 <= i < |r| ==> !IsSpace(r[i])
    ensures |r| == |s| || IsSpace(s[|r|])
  {
    if s == [] || IsSpace(s[0]) then [] else [s[0]] + TakeUntilSpace(s[1..])
  }

  /** `line.split()[0]`; `None` where `split()` is empty and the index raises. */
  function FirstToken(line: string): (r: Option<string>)
    ensures r.None? <==> forall i :: 0 <= i < |line| ==> IsSpace(line[i])
    ensures r.Some? ==> r.value != [] && forall i :: 0 <= i < |r.value| ==> !IsSpace(r.value[i])
  {
    TrimLeftSpec(line);
    var t := TrimLeft(line);
    if t == [] then None else Some(TakeUntilSpace(t))
  }

  /** The lines the loop inspects. */
  predicate IsNameLine(line: string) {
    Contains(line, "<20>") && Contains(line, "UNIQUE")
  }

  /** A name line is one where both '<20>' and 'UNIQUE' occur somewhere. */
  lemma IsNameLineIff(line: string)
    ensures IsNameLine(line) <==> (exists i :: OccursAt(line, "<20>", i)) && exists j :: OccursAt(line, "UNIQUE", j)
  {
    ContainsIff(line, "<20>");
    ContainsIff(line, "UNIQUE");
  }

  /** A line holding '<20>' always has a first token, and it is never empty. */
  lemma NameLineHasToken(line: string)
    requires Contains(line, "<20>")
    ensures FirstToken(line).Some? && FirstToken(line).value != ""
  {
    ContainsIff(line, "<20>");
    var i :| OccursAt(line, "<20>", i);
    assert line[i] == line[i..i + 4][0] == '<';
  }

  /**
   * The loop of `netbios_lookup` over stdout's lines: the first token of the
   * first line holding '<20>' and 'UNIQUE'; an index error (a line with no
   * token) ends the lookup with nothing. `FirstToken` never yields an empty
   * token, so the source's `if nome_netbios` test is already decided here.
   */
  function NetbiosName(lines: seq<string>): (r: Option<string>)
    ensures r.Some? ==> r.value != ""
    ensures r.Some? ==> exists k :: 0 <= k < |lines| && IsNameLine(lines[k]) && FirstToken(lines[k]) == r
  {
    if lines == [] then None
    else if IsNameLine(lines[0]) then FirstToken(lines[0])
    else
      var rest := NetbiosName(lines[1..]);
      assert forall k :: 1 <= k < |lines| ==> lines[k] == lines[1..][k - 1];
      rest
  }

  /**
   * The `if nome_netbios` test never fails, so the lookup is simply the token
   * of the first line that holds both markers, and nothing when there is none.
   */
  lemma {:induction false} NetbiosNameNone(lines: seq<string>)
    ensures NetbiosName(lines).None? <==> forall k :: 0 <= k < |lines| ==> !IsNameLine(lines[k])
  {
    if lines != [] {
      if IsNameLine(lines[0]) {
        NameLineHasToken(lines[0]);
      } else {
        NetbiosNameNone(lines[1..]);
        assert forall k :: 1 <= k < |lines| ==> lines[k] == lines[1..][k - 1];
      }
    }
  }

  /** The lookup yields the token of the first line holding both markers. */
  lemma {:induction false} NetbiosNameIsFirstNameLine(lines: seq<string>, k: nat)
    requires k < |lines| && IsNameLine(lines[k])
    requires forall j :: 0 <= j < k ==> !IsNameLine(lines[j])
    ensures NetbiosName(lines) == FirstToken(lines[k])
  {
    if k > 0 {
      assert !IsNameLine(lines[0]);
      assert lines[1..][k - 1] == lines[k];
      NetbiosNameIsFirstNameLine(lines[1..], k - 1);
    }
  }

  function NetbiosOf(run: NbtstatRun): (r: Option<string>)
    ensures r.Some? ==> run.NbtstatOutput? && r.value != ""
  {
    if run.NbtstatFailed? then None else NetbiosName(run.lines)
  }

  /** `netbios_lookup`: the loop with its early return. */
  method NetbiosLookup(run: NbtstatRun) returns (name: Option<string>)
    ensures name == NetbiosOf(run)
  {
    if run.NbtstatFailed? {
      return None;
    }
    var lines := run.lines;
    var i := 0;
    while i < |lines|
      invariant 0 <= i <= |lines|
      invariant NetbiosName(lines) == NetbiosName(lines[i..])
    {
      assert lines[i..][1..] == lines[i + 1..];
      var line := lines[i];
      if Contains(line, "<20>") && Contains(line, "UNIQUE") {
        assert NetbiosName(lines[i..]) == FirstToken(line);
        name := FirstToken(line);
        return;
      }
      i := i + 1;
    }
    assert lines[i..] == [];
    return None;
  }

  // ---------------------------------------------------------------- names

  /** What the detailed nmap scan reports for a host; a missing key reads as an empty list. */
  datatype Detail = Detail(hostnames: seq<Option<string>>, osmatch: seq<Option<string>>)

  /** `if name and name != 'localhost'`: a missing, empty or 'localhost' name is skipped. */
  predicate UsableHostname(name: Option<string>)
    ensures name.None? || name == Some("") || name == Some("localhost") ==> !UsableHostname(name)
    ensures name.Some? && name.value != "" && name.value != "localhost" ==> UsableHostname(name)
  {
    Present(name) && name.value != "localhost"
  }

  /** The first reported hostname that is non-empty and not 'localhost'. */
  function FirstHostname(names: seq<Option<string>>): (r: Option<string>)
    ensures r.Some? ==> exists k :: (0 <= k < |names| && names[k] == r && UsableHostname(names[k])
          && forall j :: 0 <= j < k ==> !UsableHostname(names[j]))
    ensures r.None? <==> forall k :: 0 <= k < |names| ==> !UsableHostname(names[k])
  {
    if names == [] then None
    else if UsableHostname(names[0]) then names[0]
    else
      var rest := FirstHostname(names[1..]);
      assert forall k :: 1 <= k < |names| ==> names[k] == names[1..][k - 1];
      rest
  }

  /** `ip.split('.')[-1]`: the text after the last '.', or all of it when there is none. */
  function AfterLastDot(s: string): (r: string)
    ensures '.' !in r
    ensures |r| <= |s| && r == s[|s| - |r|..]
    ensures |r| < |s| ==> s[|s| - |r| - 1] == '.'
  {
    if s == [] || s[|s| - 1] == '.' then []
    else AfterLastDot(s[..|s| - 1]) + [s[|s| - 1]]
  }

  /** `get_best_name`, given what the NetBIOS lookup returned. */
  function GetBestName(ip: string, netbios: Option<string>, detail: Option<Detail>): (r: string)
    ensures r != ""
    ensures Present(netbios) ==> r == netbios.value
    ensures !Present(netbios) && detail.Some? && FirstHostname(detail.value.hostnames).Some?
        ==> UsableHostname(Some(r)) && Some(r) in detail.value.hostnames
    ensures !Present(netbios) && detail.Some? && FirstHostname(detail.value.hostnames).Some?
        ==> Some(r) == FirstHostname(detail.value.hostnames)
    ensures !Present(netbios) && (detail.None? || FirstHostname(detail.value.hostnames).None?)
        ==> r == "Dispositivo-" + AfterLastDot(ip) && '.' !in r[12..]
  {
    if Present(netbios) then netbios.value
    else if detail.Some? && FirstHostname(detail.value.hostnames).Some? then
      FirstHostname(detail.value.hostnames).value
    else "Dispositivo-" + AfterLastDot(ip)
  }

  /** `get_os_guess`: the first osmatch name; an empty list or a nameless entry gives 'OS Bloqueado'. */
  function GetOsGuess(detail: Option<Detail>): (r: string)
    ensures detail.None? || detail.value.osmatch == [] ==> r == "OS Bloqueado"
    ensures detail.Some? && detail.value.osmatch != [] && detail.value.osmatch[0].Some?
        ==> r == detail.value.osmatch[0].value
    ensures detail.Some? && detail.value.osmatch != [] && detail.value.osmatch[0].None? ==> r == "OS Bloqueado"
  {
    if detail.Some? && detail.value.osmatch != [] then
      if detail.value.osmatch[0].Some? then detail.value.osmatch[0].value else "OS Bloqueado"
    else "OS Bloqueado"
  }

  // ---------------------------------------------------------------- the scan

  /**
   * One host found alive by the ping scan: its IP, the MAC nmap reported,
   * what `get_mac_address` returns for it, the `nbtstat` run and the detailed
   * scan's data (absent when that scan failed or did not list the host).
   */
  datatype LiveHost = LiveHost(
    ip: string,
    nmapMac: Option<string>,
    localMac: Option<string>,
    nbtstat: NbtstatRun,
    detail: Option<Detail>)

  /** The ping scan: an nmap error, or the live hosts. */
  datatype PingScan = PingScanFailed | PingScanDone(live: seq<LiveHost>)

  /** nmap's MAC, else 'N/A' replaced by the upper-cased local lookup when that finds one. */
  function ResolveMac(h: LiveHost): (r: string)
    ensures h.nmapMac.Some? && h.nmapMac.value != "N/A" ==> r == h.nmapMac.value
    ensures (h.nmapMac.None? || h.nmapMac.value == "N/A") && Present(h.localMac) ==> r == Upper(h.localMac.value)
    ensures (h.nmapMac.None? || h.nmapMac.value == "N/A") && !Present(h.localMac) ==> r == "N/A"
  {
    var mac := if h.nmapMac.Some? then h.nmapMac.value else "N/A";
    if mac == "N/A" && Present(h.localMac) then Upper(h.localMac.value) else mac
  }

  /** The stored name: the best name, then the OS guess in parentheses. */
  function HostName(h: LiveHost): (r: string)
    ensures StartsWith(r, GetBestName(h.ip, NetbiosOf(h.nbtstat), h.detail) + " (")
    ensures EndsWith(r, GetOsGuess(h.detail) + ")")
    ensures Framed(r, GetBestName(h.ip, NetbiosOf(h.nbtstat), h.detail) + " (", GetOsGuess(h.detail), ")")
  {
    var head := GetBestName(h.ip, NetbiosOf(h.nbtstat), h.detail) + " (";
    var os := GetOsGuess(h.detail);
    ConcatEnds(head, os, ")");
    FramedIff(head + os + ")", head, os, ")");
    head + os + ")"
  }

  /** The row a host is stored under: same IP, or the same MAC when that MAC is known. */
  function SameHost(ip: string, mac: string): Asset -> bool {
    (a: Asset) => a.ip == Some(ip) || (a.mac == Some(mac) && mac != "N/A")
  }

  function MatchOf(t: Table<Asset>, h: LiveHost): (r: Option<int>)
    requires t.Valid()
    ensures r.Some? ==> r.value in t.rows && SameHost(h.ip, ResolveMac(h))(t.rows[r.value])
    ensures r.Some? ==> forall id :: id in t.rows && id < r.value ==> !SameHost(h.ip, ResolveMac(h))(t.rows[id])
    ensures r.None? <==> forall id :: id in t.rows ==> !SameHost(h.ip, ResolveMac(h))(t.rows[id])
  {
    t.LowestMatch(SameHost(h.ip, ResolveMac(h)))
  }

  /** The row inserted for a host seen for the first time. */
  function NewRow(h: LiveHost, now: string): Asset {
    Asset(HostName(h), Some(h.ip), Some(ResolveMac(h)), Some("Online"), Some("Monitorado"),
          Some(now), Some(GetAssetType(GetOsGuess(h.detail))), None)
  }

  /** The UPDATE of a known row: status, nome, tipo and data_inicio only. */
  function Refreshed(a: Asset, h: LiveHost, now: string): Asset {
    a.(status := Some("Online"), nome := HostName(h), tipo := Some(GetAssetType(GetOsGuess(h.detail))),
       dataInicio := Some(now))
  }

  /** One iteration of the host loop. */
  function Upsert(t: Table<Asset>, h: LiveHost, now: string): (r: Table<Asset>)
    requires t.Valid()
    ensures r.Valid() && t.rows.Keys <= r.rows.Keys && t.nextId <= r.nextId
  {
    match MatchOf(t, h)
    case None => t.Insert(NewRow(h, now))
    case Some(id) => t.(rows := t.rows[id := Refreshed(t.rows[id], h, now)])
  }

  /**
   * A host no row matches adds exactly one row, Online and 'Monitorado', named
   * "<base> (<os>)"; a matched row keeps its IP, MAC and condition and becomes
   * Online; no other row changes.
   */
  lemma UpsertSpec(t: Table<Asset>, h: LiveHost, now: string)
    requires t.Valid()
    ensures var r := Upsert(t, h, now);
      MatchOf(t, h).None? ==>
        t.nextId !in t.rows && r.rows.Keys == t.rows.Keys + {t.nextId} && |r.rows| == |t.rows| + 1
        && r.rows[t.nextId].status == Some("Online") && r.rows[t.nextId].condicao == Some("Monitorado")
        && r.rows[t.nextId].ip == Some(h.ip) && r.rows[t.nextId].nome == HostName(h)
    ensures var r := Upsert(t, h, now);
      MatchOf(t, h).Some? ==>
        var id := MatchOf(t, h).value;
        r.rows.Keys == t.rows.Keys && r.nextId == t.nextId
        && r.rows[id].status == Some("Online") && r.rows[id].nome == HostName(h)
        && r.rows[id].ip == t.rows[id].ip && r.rows[id].mac == t.rows[id].mac
        && r.rows[id].condicao == t.rows[id].condicao && r.rows[id].tempoDeUso == t.rows[id].tempoDeUso
    ensures var r := Upsert(t, h, now);
      forall id :: id in t.rows && MatchOf(t, h) != Some(id) ==> r.rows[id] == t.rows[id]
  {
  }

  /** The host loop over the first hosts, one `Upsert` per host in scan order. */
  function UpsertAll(t: Table<Asset>, hosts: seq<LiveHost>, now: string): (r: Table<Asset>)
    requires t.Valid()
    ensures r.Valid() && t.rows.Keys <= r.rows.Keys
  {
    if hosts == [] then t
    else Upsert(UpsertAll(t, hosts[..|hosts| - 1], now), hosts[|hosts| - 1], now)
  }

  lemma {:induction false} UpsertAllAppend(t: Table<Asset>, a: seq<LiveHost>, b: seq<LiveHost>, now: string)
    requires t.Valid()
    ensures UpsertAll(t, a + b, now) == UpsertAll(UpsertAll(t, a, now), b, now)
    decreases |b|
  {
    if b == [] {
      assert a + b == a;
    } else {
      assert (a + b)[..|a + b| - 1] == a + b[..|b| - 1];
      UpsertAllAppend(t, a, b[..|b| - 1], now);
    }
  }

  function Ips(hosts: seq<LiveHost>): (r: seq<string>)
    ensures |r| == |hosts| && forall k :: 0 <= k < |hosts| ==> r[k] == hosts[k].ip
  {
    if hosts == [] then [] else Ips(hosts[..|hosts| - 1]) + [hosts[|hosts| - 1].ip]
  }

  /** A row the offline pass rewrites: Online, with an IP that the scan did not see. */
  predicate StaleOnline(a: Asset, live: seq<string>) {
    a.status == Some("Online") && a.ip.Some? && a.ip.value !in live
  }

  /**
   * `UPDATE ... SET status = 'Offline' WHERE ip_address NOT IN (live) AND status = 'Online'`.
   * A NULL ip_address makes NOT IN unknown, so such rows are left alone.
   */
  function MarkOffline(t: Table<Asset>, live: seq<string>): (r: Table<Asset>)
    requires t.Valid()
    ensures r.Valid() && r.rows.Keys == t.rows.Keys && r.nextId == t.nextId
    ensures forall id :: id in r.rows ==> !StaleOnline(r.rows[id], live)
    ensures forall id :: (id in t.rows && StaleOnline(t.rows[id], live)
        ==> r.rows[id] == t.rows[id].(status := Some("Offline")))
    ensures forall id :: id in t.rows && !StaleOnline(t.rows[id], live) ==> r.rows[id] == t.rows[id]
  {
    t.(rows := map id | id in t.rows ::
      if StaleOnline(t.rows[id], live) then t.rows[id].(status := Some("Offline")) else t.rows[id])
  }

  /** Running the offline pass again changes nothing. */
  lemma MarkOfflineIdempotent(t: Table<Asset>, live: seq<string>)
    requires t.Valid()
    ensures MarkOffline(MarkOffline(t, live), live) == MarkOffline(t, live)
  {
    var once := MarkOffline(t, live);
    assert MarkOffline(once, live).rows == once.rows;
  }

  /** `discover_and_add_assets` on the table. */
  function Discover(t: Table<Asset>, scan: PingScan, now: string): (r: Table<Asset>)
    requires t.Valid()
    ensures r.Valid() && t.rows.Keys <= r.rows.Keys
    ensures scan.PingScanFailed? || scan.live == [] ==> r == t
    ensures scan.PingScanDone? && scan.live != [] ==> forall id :: id in r.rows ==> !StaleOnline(r.rows[id], Ips(scan.live))
  {
    if scan.PingScanFailed? || scan.live == [] then t
    else MarkOffline(UpsertAll(t, scan.live, now), Ips(scan.live))
  }

  /** A row that is Online stays Online, with the same IP, through any later hosts. */
  lemma {:induction false} StaysOnline(t: Table<Asset>, hosts: seq<LiveHost>, now: string, id: int)
    requires t.Valid() && id in t.rows && t.rows[id].status == Some("Online")
    ensures id in UpsertAll(t, hosts, now).rows
    ensures UpsertAll(t, hosts, now).rows[id].status == Some("Online")
    ensures UpsertAll(t, hosts, now).rows[id].ip == t.rows[id].ip
    decreases |hosts|
  {
    if hosts != [] {
      StaysOnline(t, hosts[..|hosts| - 1], now, id);
      UpsertSpec(UpsertAll(t, hosts[..|hosts| - 1], now), hosts[|hosts| - 1], now);
    }
  }

  /** The host at position k turns the row it matched Online and leaves its IP alone. */
  lemma MatchedRowOnline(t: Table<Asset>, live: seq<LiveHost>, now: string, k: nat, id: int)
    requires t.Valid() && k < |live|
    requires MatchOf(UpsertAll(t, live[..k], now), live[k]) == Some(id)
    ensures id in UpsertAll(t, live[..k + 1], now).rows
    ensures UpsertAll(t, live[..k + 1], now).rows[id].status == Some("Online")
    ensures UpsertAll(t, live[..k + 1], now).rows[id].ip == UpsertAll(t, live[..k], now).rows[id].ip
  {
    assert live[..k + 1][..k] == live[..k] && live[..k + 1][k] == live[k];
    UpsertSpec(UpsertAll(t, live[..k], now), live[k], now);
  }

  /** What holds after the first k + 1 hosts holds after all of them. */
  lemma OnlineUntilEnd(t: Table<Asset>, live: seq<LiveHost>, now: string, k: nat, id: int)
    requires t.Valid() && k < |live|
    requires id in UpsertAll(t, live[..k + 1], now).rows
    requires UpsertAll(t, live[..k + 1], now).rows[id].status == Some("Online")
    ensures id in UpsertAll(t, live, now).rows
    ensures UpsertAll(t, live, now).rows[id].status == Some("Online")
    ensures UpsertAll(t, live, now).rows[id].ip == UpsertAll(t, live[..k + 1], now).rows[id].ip
  {
    SplitAt(live, k + 1);
    StaysOnlineAfter(t, live[..k + 1], live[k + 1..], now, id);
  }

  lemma SplitAt<T>(s: seq<T>, n: nat)
    requires n <= |s|
    ensures s[..n] + s[n..] == s
  {
  }

  lemma StaysOnlineAfter(t: Table<Asset>, a: seq<LiveHost>, b: seq<LiveHost>, now: string, id: int)
    requires t.Valid() && id in UpsertAll(t, a, now).rows
    requires UpsertAll(t, a, now).rows[id].status == Some("Online")
    ensures id in UpsertAll(t, a + b, now).rows
    ensures UpsertAll(t, a + b, now).rows[id].status == Some("Online")
    ensures UpsertAll(t, a + b, now).rows[id].ip == UpsertAll(t, a, now).rows[id].ip
  {
    UpsertAllAppend(t, a, b, now);
    StaysOnline(UpsertAll(t, a, now), b, now, id);
  }

  /**
   * A row that a host matched by MAC, whose stored IP the scan did not see,
   * ends the cycle Offline: the upsert keeps its old IP, and the offline pass
   * then finds it Online with an IP outside the live list.
   */
  lemma MacMatchedRowEndsOffline(t: Table<Asset>, live: seq<LiveHost>, now: string, k: nat, id: int)
    requires t.Valid() && k < |live|
    requires MatchOf(UpsertAll(t, live[..k], now), live[k]) == Some(id)
    requires UpsertAll(t, live[..k], now).rows[id].ip.Some?
    requires UpsertAll(t, live[..k], now).rows[id].ip.value !in Ips(live)
    ensures id in Discover(t, PingScanDone(live), now).rows
    ensures Discover(t, PingScanDone(live), now).rows[id].status == Some("Offline")
  {
    MatchedRowOnline(t, live, now, k, id);
    OnlineUntilEnd(t, live, now, k, id);
    var merged := UpsertAll(t, live, now);
    assert StaleOnline(merged.rows[id], Ips(live));
  }

  /** The body of the host loop: resolve MAC, name, OS and type, then INSERT or UPDATE. */
  method UpsertHost(db: Database, h: LiveHost, now: string)
    requires db.Valid()
    modifies db`ativos
    ensures db.Valid()
    ensures db.ativos == Upsert(old(db.ativos), h, now)
  {
    var mac := if h.nmapMac.Some? then h.nmapMac.value else "N/A";
    if mac == "N/A" && Present(h.localMac) {
      mac := Upper(h.localMac.value);
    }
    var netbios := NetbiosLookup(h.nbtstat);
    var nomeBase := GetBestName(h.ip, netbios, h.detail);
    var sistemaOp := GetOsGuess(h.detail);
    var tipo := GetAssetType(sistemaOp);
    var nome := nomeBase + " (" + sistemaOp + ")";
    assert mac == ResolveMac(h) && nome == HostName(h);
    var existing := db.ativos.LowestMatch(SameHost(h.ip, mac));
    assert existing == MatchOf(db.ativos, h);
    ghost var t0 := db.ativos;
    if existing.None? {
      var novo := Asset(nome, Some(h.ip), Some(mac), Some("Online"), Some("Monitorado"), Some(now), Some(tipo), None);
      assert novo == NewRow(h, now);
      db.ativos := db.ativos.Insert(novo);
      assert db.ativos == Upsert(t0, h, now);
    } else {
      var id := existing.value;
      var row := db.ativos.rows[id];
      var refreshed := row.(status := Some("Online"), nome := nome, tipo := Some(tipo), dataInicio := Some(now));
      assert refreshed == Refreshed(row, h, now);
      db.ativos := db.ativos.(rows := db.ativos.rows[id := refreshed]);
      assert db.ativos == Upsert(t0, h, now);
    }
  }

  /** `discover_and_add_assets` over the database. */
  method DiscoverAndAddAssets(db: Database, scan: PingScan, now: string)
    requires db.Valid()
    modifies db`ativos
    ensures db.Valid()
    ensures db.ativos == Discover(old(db.ativos), scan, now)
  {
    if scan.PingScanFailed? {
      return;
    }
    var live := scan.live;
    if |live| == 0 {
      return;
    }
    ghost var t0 := db.ativos;
    var scanned: seq<string> := [];
    var i := 0;
    while i < |live|
      invariant 0 <= i <= |live|
      invariant db.ativos == UpsertAll(t0, live[..i], now)
      invariant scanned == Ips(live[..i])
    {
      var h := live[i];
      assert live[..i + 1][..i] == live[..i] && live[..i + 1][i] == h;
      scanned := scanned + [h.ip];
      UpsertHost(db, h, now);
      i := i + 1;
    }
    assert live[..i] == live;
    if scanned != [] {
      db.ativos := MarkOffline(db.ativos, scanned);
    }
  }
}
