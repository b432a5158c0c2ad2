/**
 * The ping monitor `monitor.py`: one pass of `verificar_ativos` pings every
 * row that has an IP, rewrites the status of the rows whose status changed
 * and logs one alert per change. `ping3` is not modelled: what it did for
 * each row of the pass is an oracle from row id to `PingReply`.
 */
module Monitor {
  import opened Common
  import opened Storage

  /** What `ping(ip, timeout=1)` did: a delay in seconds, None (timeout), False (error), or an exception. */
  datatype PingReply = Delay(seconds: real) | NoReply | Refused | Raised

  /**
   * `ping_host`: online iff the reply is neither None nor False; an exception
   * counts as offline. A delay of 0.0 is online: the test is by identity, not truthiness.
   */
  predicate PingHost(reply: PingReply)
    ensures PingHost(reply) <==> reply.Delay?
  {
    reply != NoReply && reply != Refused && reply != Raised
  }

  lemma PingHostIffDelay(reply: PingReply)
    ensures PingHost(reply) <==> reply.Delay?
    ensures PingHost(Delay(0.0))
  {
  }

  function NewStatus(reply: PingReply): (s: string)
    ensures s == "Online" <==> PingHost(reply)
    ensures s == "Online" || s == "Offline"
  {
    if PingHost(reply) then "Online" else "Offline"
  }

  /** A row is pinged only when its IP is neither NULL nor empty. */
  predicate Pinged(a: Asset) {
    Present(a.ip)
  }

  /** The row is written only when the new status differs from the stored one (NULL differs from both). */
  predicate Changed(a: Asset, reply: PingReply)
    ensures Changed(a, reply) ==> Pinged(a)
    ensures Pinged(a) && a.status == Some("Online") ==> (Changed(a, reply) <==> !reply.Delay?)
    ensures Pinged(a) && a.status == Some("Offline") ==> (Changed(a, reply) <==> reply.Delay?)
    ensures Pinged(a) && a.status != Some("Online") && a.status != Some("Offline") ==> Changed(a, reply)
  {
    Pinged(a) && a.status != Some(NewStatus(reply))
  }

  /** The row after the pass: only `status` may change. */
  function Checked(a: Asset, reply: PingReply): (r: Asset)
    ensures r == a.(status := r.status)
    ensures Changed(a, reply) ==> r.status == Some(NewStatus(reply)) && r.status != a.status
    ensures !Changed(a, reply) ==> r == a
    ensures Pinged(a) ==> r.status == Some(NewStatus(reply))
  {
    if Changed(a, reply) then a.(status := Some(NewStatus(reply))) else a
  }

  /** The alert logged for a changed row. */
  function ChangeAlert(a: Asset, reply: PingReply, now: string): (r: Alert)
    requires Pinged(a)
    ensures r.tipoAlerta == "Status: " + NewStatus(reply) && r.dataHora == now
    ensures NewStatus(reply) == "Offline" ==> Framed(r.mensagem, "O ativo '" + a.nome + "' (IP: ", a.ip.value, ") ficou OFFLINE.")
    ensures NewStatus(reply) == "Online" ==> Framed(r.mensagem, "O ativo '" + a.nome + "' (IP: ", a.ip.value, ") voltou a ficar ONLINE.")
  {
    var head := "O ativo '" + a.nome + "' (IP: ";
    if NewStatus(reply) == "Offline" then
      FramedIff(head + a.ip.value + ") ficou OFFLINE.", head, a.ip.value, ") ficou OFFLINE.");
      Alert(now, "Status: Offline", head + a.ip.value + ") ficou OFFLINE.")
    else
      FramedIff(head + a.ip.value + ") voltou a ficar ONLINE.", head, a.ip.value, ") voltou a ficar ONLINE.");
      Alert(now, "Status: Online", head + a.ip.value + ") voltou a ficar ONLINE.")
  }

  /** The table after one pass. */
  function MonitorTable(t: Table<Asset>, replies: int -> PingReply): (r: Table<Asset>)
    requires t.Valid()
    ensures r.Valid() && r.rows.Keys == t.rows.Keys && r.nextId == t.nextId
    ensures forall id :: id in t.rows && !Pinged(t.rows[id]) ==> r.rows[id] == t.rows[id]
    ensures forall id :: id in t.rows ==> r.rows[id] == t.rows[id].(status := r.rows[id].status)
    ensures forall id :: id in t.rows ==> (r.rows[id] != t.rows[id] <==> Changed(t.rows[id], replies(id)))
  {
    t.(rows := map id | id in t.rows :: Checked(t.rows[id], replies(id)))
  }

  /** The alerts logged for the fetched rows, in fetch order. */
  function MonitorAlerts(fetched: seq<(int, Asset)>, replies: int -> PingReply, now: string): (r: seq<Alert>)
    ensures |r| <= |fetched|
  {
    if fetched == [] then []
    else
      var last := fetched[|fetched| - 1];
      MonitorAlerts(fetched[..|fetched| - 1], replies, now)
        + (if Changed(last.1, replies(last.0)) then [ChangeAlert(last.1, replies(last.0), now)] else [])
  }

  /** The rows whose status the pass changes. */
  function IsChange(replies: int -> PingReply): ((int, Asset)) -> bool {
    (e: (int, Asset)) => Changed(e.1, replies(e.0))
  }

  /** Exactly one alert per changed row. */
  lemma {:induction false} OneAlertPerChange(fetched: seq<(int, Asset)>, replies: int -> PingReply, now: string)
    ensures |MonitorAlerts(fetched, replies, now)| == Count(fetched, IsChange(replies))
  {
    if fetched != [] {
      var init, last := fetched[..|fetched| - 1], fetched[|fetched| - 1];
      OneAlertPerChange(init, replies, now);
      assert fetched == init + [last];
      CountAppend(init, [last], IsChange(replies));
    }
  }

  /** A pass over rows none of which changes logs nothing. */
  lemma {:induction false} NoChangeNoAlert(fetched: seq<(int, Asset)>, replies: int -> PingReply, now: string)
    requires forall k :: 0 <= k < |fetched| ==> !Changed(fetched[k].1, replies(fetched[k].0))
    ensures MonitorAlerts(fetched, replies, now) == []
  {
    if fetched != [] {
      NoChangeNoAlert(fetched[..|fetched| - 1], replies, now);
    }
  }

  /** With the same ping replies, a second pass changes nothing and logs nothing. */
  lemma SecondPassQuiet(t: Table<Asset>, replies: int -> PingReply, now: string)
    requires t.Valid()
    ensures MonitorTable(MonitorTable(t, replies), replies) == MonitorTable(t, replies)
    ensures MonitorAlerts(MonitorTable(t, replies).Listing(), replies, now) == []
  {
    var once := MonitorTable(t, replies);
    assert forall id :: id in once.rows ==> !Changed(once.rows[id], replies(id));
    assert MonitorTable(once, replies).rows == once.rows;
    NoChangeNoAlert(once.Listing(), replies, now);
  }

  /** An empty table: no write and no alert. */
  lemma EmptyTableQuiet(t: Table<Asset>, replies: int -> PingReply, now: string)
    requires t.Valid() && t.rows == map[]
    ensures MonitorTable(t, replies) == t
    ensures MonitorAlerts(t.Listing(), replies, now) == []
  {
    t.ListingLength();
  }

  lemma MonitorAlertsStep(fetched: seq<(int, Asset)>, replies: int -> PingReply, now: string, k: nat)
    requires k < |fetched|
    ensures MonitorAlerts(fetched[..k + 1], replies, now) == MonitorAlerts(fetched[..k], replies, now)
      + (if Changed(fetched[k].1, replies(fetched[k].0)) then [ChangeAlert(fetched[k].1, replies(fetched[k].0), now)] else [])
  {
    assert fetched[..k + 1][..k] == fetched[..k];
  }

  /** A table whose every row went through `Checked` is the table after the pass. */
  lemma MonitorTableByRows(t: Table<Asset>, u: Table<Asset>, replies: int -> PingReply)
    requires t.Valid() && u.nextId == t.nextId
    requires RowsChecked(t, u.rows, t.rows.Keys, replies)
    ensures u == MonitorTable(t, replies)
  {
    var m := MonitorTable(t, replies);
    assert m.rows == map id | id in t.rows :: Checked(t.rows[id], replies(id));
    assert forall id :: id in u.rows ==> u.rows[id] == m.rows[id];
    assert u.rows == m.rows;
  }

  /** The body of the row loop: ping, compare, and on a change UPDATE the status and log the alert. */
  method CheckRow(db: Database, id: int, ativo: Asset, reply: PingReply, now: string)
    requires db.Valid() && id in db.ativos.rows
    modifies db`ativos, db`alertas
    ensures db.Valid()
    ensures db.ativos == old(db.ativos).(rows := old(db.ativos).rows[id := if Changed(ativo, reply)
      then old(db.ativos).rows[id].(status := Some(NewStatus(reply))) else old(db.ativos).rows[id]])
    ensures db.alertas == old(db.alertas) + (if Changed(ativo, reply) then [ChangeAlert(ativo, reply, now)] else [])
  {
    if !Present(ativo.ip) {
      return;
    }
    var statusNovo := if PingHost(reply) then "Online" else "Offline";
    if Some(statusNovo) != ativo.status {
      db.ativos := db.ativos.(rows := db.ativos.rows[id := db.ativos.rows[id].(status := Some(statusNovo))]);
      if statusNovo == "Offline" {
        db.alertas := db.alertas + [Alert(now, "Status: Offline",
          "O ativo '" + ativo.nome + "' (IP: " + ativo.ip.value + ") ficou OFFLINE.")];
      } else {
        db.alertas := db.alertas + [Alert(now, "Status: Online",
          "O ativo '" + ativo.nome + "' (IP: " + ativo.ip.value + ") voltou a ficar ONLINE.")];
      }
    } else {
      assert db.ativos.rows[id := db.ativos.rows[id]] == db.ativos.rows;
    }
  }

  /** The ids of the fetched rows. */
  ghost function FetchedIds(fetched: seq<(int, Asset)>): set<int> {
    set j | 0 <= j < |fetched| :: fetched[j].0
  }

  lemma FetchedIdsStep(fetched: seq<(int, Asset)>, k: nat)
    requires k < |fetched|
    ensures FetchedIds(fetched[..k + 1]) == FetchedIds(fetched[..k]) + {fetched[k].0}
  {
    assert fetched[..k + 1] == fetched[..k] + [fetched[k]];
  }

  /** Every row of the table is fetched by `SELECT *`. */
  lemma ListingCoversRows(t: Table<Asset>)
    requires t.Valid()
    ensures forall id :: id in t.rows ==> id in FetchedIds(t.Listing())
  {
    var fetched := t.Listing();
    forall id | id in t.rows ensures id in FetchedIds(fetched) {
      var j :| 0 <= j < |fetched| && fetched[j] == (id, t.rows[id]);
    }
  }

  /** Each row of `t0` has been through `Checked` when its id is in `done`, and is untouched otherwise. */
  ghost predicate RowsChecked(t0: Table<Asset>, rows: map<int, Asset>, done: set<int>, replies: int -> PingReply) {
    rows.Keys == t0.rows.Keys &&
    forall id :: id in t0.rows ==> rows[id] == if id in done then Checked(t0.rows[id], replies(id)) else t0.rows[id]
  }

  lemma RowsCheckedStep(t0: Table<Asset>, before: map<int, Asset>, after: map<int, Asset>, done: set<int>, id: int,
                        replies: int -> PingReply)
    requires RowsChecked(t0, before, done, replies) && id in t0.rows
    requires after == before[id := if Changed(t0.rows[id], replies(id))
      then before[id].(status := Some(NewStatus(replies(id)))) else before[id]]
    ensures RowsChecked(t0, after, done + {id}, replies)
  {
  }

  lemma AppendAssoc(a: seq<Alert>, b: seq<Alert>, c: seq<Alert>)
    ensures (a + b) + c == a + (b + c)
  {
  }

  /** The loop over the fetched rows. */
  method CheckFetched(db: Database, todos: seq<(int, Asset)>, replies: int -> PingReply, now: string)
    requires db.Valid()
    requires forall j :: 0 <= j < |todos| ==> todos[j].0 in db.ativos.rows && db.ativos.rows[todos[j].0] == todos[j].1
    modifies db`ativos, db`alertas
    ensures db.Valid() && db.ativos.nextId == old(db.ativos).nextId
    ensures RowsChecked(old(db.ativos), db.ativos.rows, FetchedIds(todos), replies)
    ensures db.alertas == old(db.alertas) + MonitorAlerts(todos, replies, now)
  {
    ghost var t0 := db.ativos;
    ghost var done: set<int> := {};
    ghost var a0 := db.alertas;
    var k := 0;
    while k < |todos|
      invariant 0 <= k <= |todos|
      invariant done == FetchedIds(todos[..k])
      invariant db.Valid() && db.ativos.nextId == t0.nextId
      invariant RowsChecked(t0, db.ativos.rows, done, replies)
      invariant db.alertas == a0 + MonitorAlerts(todos[..k], replies, now)
    {
      var id, ativo := todos[k].0, todos[k].1;
      assert id in t0.rows && t0.rows[id] == ativo;
      assert id in db.ativos.rows;
      ghost var alerted := MonitorAlerts(todos[..k], replies, now);
      ghost var step := if Changed(ativo, replies(id)) then [ChangeAlert(ativo, replies(id), now)] else [];
      MonitorAlertsStep(todos, replies, now, k);
      FetchedIdsStep(todos, k);
      ghost var before, alertsBefore := db.ativos.rows, db.alertas;
      CheckRow(db, id, ativo, replies(id), now);
      RowsCheckedStep(t0, before, db.ativos.rows, done, id, replies);
      assert db.alertas == alertsBefore + step;
      AppendAssoc(a0, alerted, step);
      done := done + {id};
      k := k + 1;
    }
    assert todos[..k] == todos;
  }

  /** `verificar_ativos`: fetch every row, then ping, compare, update and alert row by row. */
  method VerificarAtivos(db: Database, replies: int -> PingReply, now: string)
    requires db.Valid()
    modifies db`ativos, db`alertas
    ensures db.Valid()
    ensures db.ativos == MonitorTable(old(db.ativos), replies)
    ensures db.alertas == old(db.alertas) + MonitorAlerts(old(db.ativos).Listing(), replies, now)
  {
    ghost var t0 := db.ativos;
    var todos := db.ativos.Listing();
    t0.ListingLength();
    if |todos| == 0 {
      assert MonitorTable(t0, replies).rows == t0.rows;
      return;
    }
    CheckFetched(db, todos, replies, now);
    ListingCoversRows(t0);
    MonitorTableByRows(t0, db.ativos, replies);
  }
}
