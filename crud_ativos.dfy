/**
 * `crud_ativos.py`: the console menu that adds, lists, updates and deletes
 * rows of `ativos_online` one answer at a time. The answers `input()` would
 * read are parameters; the table is the one this script creates, with a
 * `tempo_de_uso` column and no `data_inicio` or `tipo` value.
 */
module CrudAtivos {
  import opened Common
  import opened Storage

  // ---------------------------------------------------------------- add

  /** The six answers `adicionar_ativo` reads. */
  datatype NewAnswers = NewAnswers(nome: string, ip: string, mac: string, status: string, condicao: string, tempo: string)

  /** `int(input(...))`, with 0 after a `ValueError`. */
  function TempoOrZero(text: string): (n: int)
    ensures ParseInt(text).Some? ==> n == ParseInt(text).value
    ensures ParseInt(text).None? ==> n == 0
  {
    match ParseInt(text)
    case Some(v) => v
    case None => 0
  }

  /** The row the INSERT stores: every answer verbatim, the text columns never NULL. */
  function NewAsset(ans: NewAnswers): (r: Asset)
    ensures r.nome == ans.nome && r.ip == Some(ans.ip) && r.mac == Some(ans.mac)
    ensures r.status == Some(ans.status) && r.condicao == Some(ans.condicao)
    ensures r.dataInicio == None && r.tipo == None && r.tempoDeUso.Some?
    ensures ParseInt(ans.tempo).Some? ==> r.tempoDeUso == ParseInt(ans.tempo)
  {
    Asset(ans.nome, Some(ans.ip), Some(ans.mac), Some(ans.status), Some(ans.condicao), None, None,
      Some(TempoOrZero(ans.tempo)))
  }

  /** A usage time typed as a number is stored as that number. */
  lemma TypedTempoStored(ans: NewAnswers, minutes: int)
    requires ans.tempo == IntToString(minutes)
    ensures NewAsset(ans).tempoDeUso == Some(minutes)
  {
    ParseIntRoundTrip(minutes);
  }

  /** A usage time that is not an integer is stored as 0. */
  lemma InvalidTempoStoredAsZero(ans: NewAnswers)
    requires ParseInt(ans.tempo).None?
    ensures NewAsset(ans).tempoDeUso == Some(0)
  {
  }

  /** The table after `adicionar_ativo`. */
  function AddResult(t: Table<Asset>, ans: NewAnswers): (r: Table<Asset>)
    requires t.Valid()
    ensures r.Valid() && r.rows.Keys == t.rows.Keys + {t.nextId} && r.rows[t.nextId] == NewAsset(ans)
    ensures forall id :: id in t.rows ==> r.rows[id] == t.rows[id]
  {
    t.Insert(NewAsset(ans))
  }

  // ---------------------------------------------------------------- update

  /** The answers `atualizar_ativo` reads once the id is found; "" keeps a column. */
  datatype UpdateAnswers = UpdateAnswers(nome: string, ip: string, mac: string, status: string, condicao: string, tempo: string)

  /** `input(...) or ativo[k]` on a nullable column. */
  function KeepIfBlank(answer: string, current: Option<string>): (r: Option<string>)
    ensures answer == "" ==> r == current
    ensures answer != "" ==> r == Some(answer)
  {
    if answer != "" then Some(answer) else current
  }

  /** The row after the UPDATE: each blank answer keeps the old value, a non-integer time keeps the old time. */
  function Revised(a: Asset, ans: UpdateAnswers): (r: Asset)
    ensures r.nome == if ans.nome != "" then ans.nome else a.nome
    ensures r.ip == KeepIfBlank(ans.ip, a.ip) && r.mac == KeepIfBlank(ans.mac, a.mac)
    ensures r.status == KeepIfBlank(ans.status, a.status) && r.condicao == KeepIfBlank(ans.condicao, a.condicao)
    ensures ParseInt(ans.tempo).None? ==> r.tempoDeUso == a.tempoDeUso
    ensures ParseInt(ans.tempo).Some? ==> r.tempoDeUso == ParseInt(ans.tempo)
    ensures r.dataInicio == a.dataInicio && r.tipo == a.tipo
  {
    var tempo := if ans.tempo == "" then a.tempoDeUso
      else if ParseInt(ans.tempo).Some? then ParseInt(ans.tempo) else a.tempoDeUso;
    a.(nome := if ans.nome != "" then ans.nome else a.nome,
       ip := KeepIfBlank(ans.ip, a.ip), mac := KeepIfBlank(ans.mac, a.mac),
       status := KeepIfBlank(ans.status, a.status), condicao := KeepIfBlank(ans.condicao, a.condicao),
       tempoDeUso := tempo)
  }

  /** Leaving every prompt blank writes the row back unchanged. */
  lemma BlankAnswersKeepRow(a: Asset)
    ensures Revised(a, UpdateAnswers("", "", "", "", "", "")) == a
  {
  }

  /** Giving the same answers twice changes nothing the second time. */
  lemma RevisionIdempotent(a: Asset, ans: UpdateAnswers)
    ensures Revised(Revised(a, ans), ans) == Revised(a, ans)
  {
  }

  /** How `atualizar_ativo` or `deletar_ativo` ended. */
  datatype Outcome = InvalidId | NotFound(id: int) | Cancelled(id: int) | Done(id: int)

  /** The outcome of `atualizar_ativo`: the id is parsed, then looked up. */
  function UpdateOutcome(t: Table<Asset>, idText: string): (o: Outcome)
    ensures o.InvalidId? <==> ParseInt(idText).None?
    ensures o.Done? <==> ParseInt(idText).Some? && ParseInt(idText).value in t.rows
    ensures o.Done? ==> o.id == ParseInt(idText).value
    ensures !o.Cancelled?
  {
    match ParseInt(idText)
    case None => InvalidId
    case Some(id) => if id in t.rows then Done(id) else NotFound(id)
  }

  /** The table after `atualizar_ativo`: only the chosen row changes, and only when it exists. */
  function UpdateResult(t: Table<Asset>, idText: string, ans: UpdateAnswers): (r: Table<Asset>)
    requires t.Valid()
    ensures r.Valid() && r.rows.Keys == t.rows.Keys && r.nextId == t.nextId
    ensures !UpdateOutcome(t, idText).Done? ==> r == t
    ensures UpdateOutcome(t, idText).Done? ==> var id := UpdateOutcome(t, idText).id;
      r.rows[id] == Revised(t.rows[id], ans) && forall k :: k in t.rows && k != id ==> r.rows[k] == t.rows[k]
  {
    var o := UpdateOutcome(t, idText);
    if o.Done? then t.(rows := t.rows[o.id := Revised(t.rows[o.id], ans)]) else t
  }

  // ---------------------------------------------------------------- delete

  /** The outcome of `deletar_ativo`: a found row is deleted only when the lowercased answer is exactly 's'. */
  function DeleteOutcome(t: Table<Asset>, idText: string, answer: string): (o: Outcome)
    ensures o.InvalidId? <==> ParseInt(idText).None?
    ensures o.Done? <==> ParseInt(idText).Some? && ParseInt(idText).value in t.rows && Lower(answer) == "s"
    ensures !o.InvalidId? ==> o.id == ParseInt(idText).value
  {
    match ParseInt(idText)
    case None => InvalidId
    case Some(id) =>
      if id !in t.rows then NotFound(id)
      else if Lower(answer) == "s" then Done(id)
      else Cancelled(id)
  }

  /** 'S' is accepted as well, but 'sim' is not. */
  lemma OnlySConfirms(t: Table<Asset>, id: int)
    requires id in t.rows
    ensures DeleteOutcome(t, IntToString(id), "S").Done?
    ensures DeleteOutcome(t, IntToString(id), "sim").Cancelled?
  {
    ParseIntRoundTrip(id);
    assert Lower("S") == "s";
    assert Lower("sim")[1] == 'i';
  }

  function DeleteResult(t: Table<Asset>, idText: string, answer: string): (r: Table<Asset>)
    requires t.Valid()
    ensures r.Valid() && r.nextId == t.nextId
    ensures DeleteOutcome(t, idText, answer).Done? ==> r == t.Remove(DeleteOutcome(t, idText, answer).id)
    ensures !DeleteOutcome(t, idText, answer).Done? ==> r == t
  {
    var o := DeleteOutcome(t, idText, answer);
    if o.Done? then t.Remove(o.id) else t
  }

  // ---------------------------------------------------------------- menu

  /** What the menu does with a choice; anything but '1' to '5' is invalid. */
  datatype Action = Add | List | Update | Delete | Exit | Invalid

  function Choose(choice: string): (a: Action)
    ensures a == Add <==> choice == "1"
    ensures a == List <==> choice == "2"
    ensures a == Update <==> choice == "3"
    ensures a == Delete <==> choice == "4"
    ensures a == Exit <==> choice == "5"
    ensures a == Invalid <==> choice !in {"1", "2", "3", "4", "5"}
  {
    if choice == "1" then Add
    else if choice == "2" then List
    else if choice == "3" then Update
    else if choice == "4" then Delete
    else if choice == "5" then Exit
    else Invalid
  }

  /** One turn of the menu: the choice and the answers the chosen operation then reads. */
  datatype Turn = Turn(choice: string, added: NewAnswers, idText: string, revised: UpdateAnswers, confirmation: string)

  /** The table after one turn; listing, exiting and an invalid choice change nothing. */
  function Step(t: Table<Asset>, turn: Turn): (r: Table<Asset>)
    requires t.Valid()
    ensures r.Valid()
    ensures Choose(turn.choice) in {List, Exit, Invalid} ==> r == t
  {
    match Choose(turn.choice)
    case Add => AddResult(t, turn.added)
    case Update => UpdateResult(t, turn.idText, turn.revised)
    case Delete => DeleteResult(t, turn.idText, turn.confirmation)
    case _ => t
  }

  /** The table after the given turns, one after another. */
  function Replay(t: Table<Asset>, turns: seq<Turn>): (r: Table<Asset>)
    requires t.Valid()
    ensures r.Valid()
    decreases |turns|
  {
    if turns == [] then t else Step(Replay(t, turns[..|turns| - 1]), turns[|turns| - 1])
  }

  /** Replaying one more turn is one more step. */
  lemma ReplayStep(t: Table<Asset>, turns: seq<Turn>, i: nat)
    requires t.Valid() && i < |turns|
    ensures Replay(t, turns[..i + 1]) == Step(Replay(t, turns[..i]), turns[i])
  {
    assert turns[..i + 1][..i] == turns[..i];
  }

  predicate IsAdd(turn: Turn) {
    Choose(turn.choice) == Add
  }

  /** The id counter advances exactly once per add: ids are handed out in turn and never reused. */
  lemma {:induction false} CounterCountsAdds(t: Table<Asset>, turns: seq<Turn>)
    requires t.Valid()
    ensures Replay(t, turns).nextId == t.nextId + Count(turns, IsAdd)
    decreases |turns|
  {
    if turns != [] {
      var init := turns[..|turns| - 1];
      CounterCountsAdds(t, init);
      assert turns == init + [turns[|turns| - 1]];
      CountAppend(init, [turns[|turns| - 1]], IsAdd);
    }
  }

  /** The script's view of `meu_banco.db`. */
  class CrudSession {
    var ativos: Table<Asset>

    constructor (t: Table<Asset>)
      ensures ativos == t
    {
      ativos := t;
    }

    /** `adicionar_ativo`. */
    method AdicionarAtivo(ans: NewAnswers)
      requires ativos.Valid()
      modifies this`ativos
      ensures ativos == AddResult(old(ativos), ans)
    {
      var tempo := 0;
      var parsed := ParseInt(ans.tempo);
      if parsed.Some? {
        tempo := parsed.value;
      }
      ativos := ativos.Insert(Asset(ans.nome, Some(ans.ip), Some(ans.mac), Some(ans.status), Some(ans.condicao),
        None, None, Some(tempo)));
    }

    /** `atualizar_ativo`: the id is checked first, then each column is chosen in turn. */
    method AtualizarAtivo(idText: string, ans: UpdateAnswers) returns (outcome: Outcome)
      requires ativos.Valid()
      modifies this`ativos
      ensures outcome == UpdateOutcome(old(ativos), idText)
      ensures ativos == UpdateResult(old(ativos), idText, ans)
    {
      var parsed := ParseInt(idText);
      if parsed.None? {
        return InvalidId;
      }
      var id := parsed.value;
      if id !in ativos.rows {
        return NotFound(id);
      }
      var ativo := ativos.rows[id];
      var nome := if ans.nome != "" then ans.nome else ativo.nome;
      var ip := if ans.ip != "" then Some(ans.ip) else ativo.ip;
      var mac := if ans.mac != "" then Some(ans.mac) else ativo.mac;
      var status := if ans.status != "" then Some(ans.status) else ativo.status;
      var condicao := if ans.condicao != "" then Some(ans.condicao) else ativo.condicao;
      var tempo := ativo.tempoDeUso;
      if ans.tempo != "" {
        var t := ParseInt(ans.tempo);
        if t.Some? {
          tempo := t;
        }
      }
      var row := ativo.(nome := nome, ip := ip, mac := mac, status := status, condicao := condicao, tempoDeUso := tempo);
      ativos := ativos.(rows := ativos.rows[id := row]);
      outcome := Done(id);
    }

    /** `deletar_ativo`. */
    method DeletarAtivo(idText: string, answer: string) returns (outcome: Outcome)
      requires ativos.Valid()
      modifies this`ativos
      ensures outcome == DeleteOutcome(old(ativos), idText, answer)
      ensures ativos == DeleteResult(old(ativos), idText, answer)
    {
      var parsed := ParseInt(idText);
      if parsed.None? {
        return InvalidId;
      }
      var id := parsed.value;
      if id !in ativos.rows {
        return NotFound(id);
      }
      if Lower(answer) == "s" {
        ativos := ativos.Remove(id);
        outcome := Done(id);
      } else {
        outcome := Cancelled(id);
      }
    }

    /** One pass of the `while True` body for a choice other than '5'. */
    method Perform(turn: Turn)
      requires ativos.Valid()
      modifies this`ativos
      ensures ativos == Step(old(ativos), turn)
    {
      match Choose(turn.choice) {
        case Add => AdicionarAtivo(turn.added);
        case Update => var _ := AtualizarAtivo(turn.idText, turn.revised);
        case Delete => var _ := DeletarAtivo(turn.idText, turn.confirmation);
        case _ =>
      }
    }

    /** The turn after the first `i` replayed ones. */
    method PerformNext(start: Table<Asset>, turns: seq<Turn>, i: nat)
      requires start.Valid() && i < |turns| && ativos == Replay(start, turns[..i])
      modifies this`ativos
      ensures ativos == Replay(start, turns[..i + 1])
    {
      ReplayStep(start, turns, i);
      Perform(turns[i]);
    }

    /**
     * `main`: turns are handled until the first '5'; `handled` is how many
     * were read, the '5' included, and `exited` tells whether a '5' came.
     */
    method Menu(turns: seq<Turn>) returns (handled: nat, exited: bool)
      requires ativos.Valid()
      modifies this`ativos
      ensures handled <= |turns|
      ensures exited ==> (handled > 0 && turns[handled - 1].choice == "5"
        && (forall k :: 0 <= k < handled - 1 ==> turns[k].choice != "5")
        && ativos == Replay(old(ativos), turns[..handled - 1]))
      ensures !exited ==> (handled == |turns| && (forall k :: 0 <= k < |turns| ==> turns[k].choice != "5")
        && ativos == Replay(old(ativos), turns))
    {
      var start := ativos;
      handled, exited := 0, false;
      while handled < |turns| && turns[handled].choice != "5"
        invariant 0 <= handled <= |turns|
        invariant ativos == Replay(start, turns[..handled])
        invariant forall k :: 0 <= k < handled ==> turns[k].choice != "5"
      {
        PerformNext(start, turns, handled);
        handled := handled + 1;
      }
      if handled < |turns| {
        handled, exited := handled + 1, true;
      } else {
        assert turns[..|turns|] == turns;
      }
    }
  }
}
