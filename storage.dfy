/**
 * The SQLite database the backend scripts share, as in-memory values: a table
 * is a map from INTEGER PRIMARY KEY to record plus the AUTOINCREMENT counter,
 * and the alert log is a sequence in insertion (= id) order.
 */
module Storage {
  import opened Common

  /** A row of `ativos_online`. Every column but `nome` is nullable. */
  datatype Asset = Asset(
    nome: string,
    ip: Option<string>,
    mac: Option<string>,
    status: Option<string>,
    condicao: Option<string>,
    dataInicio: Option<string>,
    tipo: Option<string>,
    tempoDeUso: Option<int>)

  /** A row of `alertas`; its id is its position in the log plus one. */
  datatype Alert = Alert(dataHora: string, tipoAlerta: string, mensagem: string)

  /** A row of `usuarios`. */
  datatype User = User(nome: string, email: Option<string>, senha: string)

  /** A table with an AUTOINCREMENT primary key. */
  datatype Table<V> = Table(rows: map<int, V>, nextId: int)
  {
    /** Every stored id was handed out by the counter, which starts at 1. */
    predicate Valid() {
      nextId >= 1 && forall id :: id in rows ==> 1 <= id < nextId
    }

    /** INSERT: the new row takes the counter's value; ids are never reused. */
    function Insert(v: V): (r: Table<V>)
      requires Valid()
      ensures r.Valid()
      ensures nextId !in rows && r.rows.Keys == rows.Keys + {nextId}
      ensures r.rows[nextId] == v && r.nextId == nextId + 1
      ensures forall id :: id in rows ==> r.rows[id] == rows[id]
      ensures |r.rows| == |rows| + 1
    {
      Table(rows[nextId := v], nextId + 1)
    }

    /** DELETE ... WHERE id = ?: the counter keeps its value. */
    function Remove(id: int): (r: Table<V>)
      requires Valid()
      ensures r.Valid()
      ensures r.rows.Keys == rows.Keys - {id} && r.nextId == nextId
      ensures forall k :: k in r.rows ==> r.rows[k] == rows[k]
      ensures id in rows ==> |r.rows| == |rows| - 1
      ensures id !in rows ==> r == this
    {
      Table(rows - {id}, nextId)
    }

    /** The first id at or after `lo` whose row satisfies `p`. */
    function FirstFrom(p: V -> bool, lo: int): (r: Option<int>)
      ensures r.Some? ==> lo <= r.value < nextId && r.value in rows && p(rows[r.value])
      ensures r.Some? ==> forall id :: lo <= id < r.value && id in rows ==> !p(rows[id])
      ensures r.None? ==> forall id :: lo <= id < nextId && id in rows ==> !p(rows[id])
      decreases nextId - lo
    {
      if lo >= nextId then None
      else if lo in rows && p(rows[lo]) then Some(lo)
      else FirstFrom(p, lo + 1)
    }

    /**
     * `SELECT ... WHERE p LIMIT 1` without ORDER BY: SQLite walks the rowid
     * b-tree in ascending order, so the lowest matching id is returned.
     */
    function LowestMatch(p: V -> bool): (r: Option<int>)
      requires Valid()
      ensures r.Some? ==> r.value in rows && p(rows[r.value])
      ensures r.Some? ==> forall id :: id in rows && id < r.value ==> !p(rows[id])
      ensures r.None? <==> forall id :: id in rows ==> !p(rows[id])
    {
      FirstFrom(p, 1)
    }

    /** The rows with ids in [lo, nextId), in ascending id order. */
    function ListFrom(lo: int): (r: seq<(int, V)>)
      ensures forall k :: 0 <= k < |r| ==> r[k].0 in rows && rows[r[k].0] == r[k].1
      ensures forall k :: 0 <= k < |r| ==> lo <= r[k].0 < nextId
      ensures forall k, j :: 0 <= k < j < |r| ==> r[k].0 < r[j].0
      decreases nextId - lo
    {
      if lo >= nextId then []
      else
        var rest := ListFrom(lo + 1);
        if lo in rows then [(lo, rows[lo])] + rest else rest
    }

    lemma {:induction false} ListFromComplete(lo: int, id: int)
      requires lo <= id < nextId && id in rows
      ensures (id, rows[id]) in ListFrom(lo)
      decreases nextId - lo
    {
      if id != lo {
        ListFromComplete(lo + 1, id);
      }
    }

    /** `SELECT * FROM t`: every row once, by ascending id. */
    function Listing(): (r: seq<(int, V)>)
      requires Valid()
      ensures forall k :: 0 <= k < |r| ==> r[k].0 in rows && rows[r[k].0] == r[k].1
      ensures forall k, j :: 0 <= k < j < |r| ==> r[k].0 < r[j].0
      ensures forall id :: id in rows ==> (id, rows[id]) in r
    {
      forall id | id in rows ensures (id, rows[id]) in ListFrom(1) {
        ListFromComplete(1, id);
      }
      ListFrom(1)
    }

    /** The ids in [lo, nextId) that hold a row. */
    ghost function IdsFrom(lo: int): set<int> {
      set id | id in rows && lo <= id < nextId
    }

    lemma {:induction false} ListFromLength(lo: int)
      ensures |ListFrom(lo)| == |IdsFrom(lo)|
      decreases nextId - lo
    {
      if lo >= nextId {
        assert IdsFrom(lo) == {};
      } else {
        ListFromLength(lo + 1);
        if lo in rows {
          assert IdsFrom(lo) == {lo} + IdsFrom(lo + 1);
        } else {
          assert IdsFrom(lo) == IdsFrom(lo + 1);
        }
      }
    }

    /** `SELECT COUNT(*)` agrees with the listing: each row is listed exactly once. */
    lemma ListingLength()
      requires Valid()
      ensures |Listing()| == |rows|
    {
      ListFromLength(1);
      assert IdsFrom(1) == rows.Keys;
    }
  }

  /** A table with no rows whose counter starts at 1. */
  function EmptyTable<V>(): (r: Table<V>)
    ensures r.Valid() && r.rows == map[]
  {
    Table(map[], 1)
  }

  /** The database file `meu_banco.db`, shared by the API, the scanner and the monitor. */
  class Database {
    var ativos: Table<Asset>
    var alertas: seq<Alert>
    var usuarios: Table<User>

    ghost predicate Valid()
      reads this
    {
      ativos.Valid() && usuarios.Valid()
    }

    /** A database whose tables are empty, as `criar_tabelas_iniciais` leaves a new file. */
    constructor ()
      ensures Valid()
      ensures ativos.rows == map[] && alertas == [] && usuarios.rows == map[]
    {
      ativos := EmptyTable();
      alertas := [];
      usuarios := EmptyTable();
    }

    /** `registrar_alerta`: one INSERT into `alertas`. */
    method RegisterAlert(when: string, tipo: string, mensagem: string)
      modifies this`alertas
      ensures alertas == old(alertas) + [Alert(when, tipo, mensagem)]
    {
      alertas := alertas + [Alert(when, tipo, mensagem)];
    }
  }
}
