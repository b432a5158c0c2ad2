/**
 * `excluir_ativos.py`: a one-shot script that lists the assets, asks for an
 * id and a confirmation, and commits the DELETE only when it removed a row.
 * The two answers `input()` would read are parameters; the class holds the
 * committed contents of `ativos_online`.
 */
module ExcluirAtivos {
  import opened Common
  import opened Storage

  /** `mostrar_todos_os_ativos`: `True` iff the listing has a row (the usage-time text is not modelled). */
  function MostrarTodos(t: Table<Asset>): (nonEmpty: bool)
    requires t.Valid()
    ensures nonEmpty <==> t.rows != map[]
  {
    t.ListingLength();
    |t.Listing()| != 0
  }

  /** Lower-casing reaches "s" or "sim" only from the spellings of those words in either case. */
  lemma LowerConfirmation(answer: string)
    ensures Lower(answer) == "s" <==> answer == "s" || answer == "S"
    ensures Lower(answer) == "sim" <==> answer in {"sim", "siM", "sIm", "sIM", "Sim", "SiM", "SIm", "SIM"}
  {
    if |answer| == 1 {
      assert Lower(answer) == [LowerChar(answer[0])];
      assert answer == [answer[0]];
    } else if |answer| == 3 {
      assert Lower(answer) == [LowerChar(answer[0]), LowerChar(answer[1]), LowerChar(answer[2])];
      assert answer == [answer[0], answer[1], answer[2]];
    }
  }

  /** `confirmacao == 's' or confirmacao == 'sim'` on the lowercased answer. */
  predicate Confirmed(answer: string)
    ensures Confirmed(answer) <==> answer in {"s", "S", "sim", "siM", "sIm", "sIM", "Sim", "SiM", "SIm", "SIM"}
  {
    LowerConfirmation(answer);
    Lower(answer) == "s" || Lower(answer) == "sim"
  }

  /** How a run ended, as its last message reports it. */
  datatype Outcome = NoAssets | InvalidId | Cancelled(id: int) | NotFound(id: int) | Deleted(id: int)

  /** The run's outcome: nothing is asked of an empty table, and the id is read before the confirmation. */
  function RunOutcome(t: Table<Asset>, idText: string, answer: string): (o: Outcome)
    requires t.Valid()
    ensures o == NoAssets <==> t.rows == map[]
    ensures o == InvalidId <==> t.rows != map[] && ParseInt(idText).None?
    ensures o.Deleted? <==> t.rows != map[] && ParseInt(idText).Some? && Confirmed(answer) && ParseInt(idText).value in t.rows
    ensures o.NotFound? ==> o.id !in t.rows && Confirmed(answer)
    ensures o.Cancelled? ==> !Confirmed(answer)
    ensures o.Deleted? || o.NotFound? || o.Cancelled? ==> ParseInt(idText) == Some(o.id)
  {
    if !MostrarTodos(t) then NoAssets
    else match ParseInt(idText)
      case None => InvalidId
      case Some(id) =>
        if !Confirmed(answer) then Cancelled(id)
        else if id in t.rows then Deleted(id)
        else NotFound(id)
  }

  /** Both accepted spellings, in any case, confirm the deletion of an existing row. */
  lemma SimConfirms(t: Table<Asset>, id: int)
    requires t.Valid() && id in t.rows
    ensures RunOutcome(t, IntToString(id), "SIM") == Deleted(id)
    ensures RunOutcome(t, IntToString(id), "s") == Deleted(id)
  {
    ParseIntRoundTrip(id);
    assert Lower("SIM") == "sim";
  }

  /** The committed database file. */
  class ExclusionScript {
    var ativos: Table<Asset>

    constructor (t: Table<Asset>)
      ensures ativos == t
    {
      ativos := t;
    }

    /**
     * The module-level script. The DELETE runs on a working copy; the
     * copy is committed only when `rowcount` is not 0, and an uncommitted
     * change is lost when the connection closes.
     */
    method Run(idText: string, answer: string) returns (outcome: Outcome)
      requires ativos.Valid()
      modifies this`ativos
      ensures ativos.Valid()
      ensures outcome == RunOutcome(old(ativos), idText, answer)
      ensures outcome.Deleted? ==> ativos == old(ativos).Remove(outcome.id) && |ativos.rows| == |old(ativos).rows| - 1
      ensures !outcome.Deleted? ==> ativos == old(ativos)
    {
      if !MostrarTodos(ativos) {
        return NoAssets;
      }
      var parsed := ParseInt(idText);
      if parsed.None? {
        return InvalidId;
      }
      var id := parsed.value;
      if !(Lower(answer) == "s" || Lower(answer) == "sim") {
        return Cancelled(id);
      }
      var working := ativos.Remove(id);
      var rowcount := |ativos.rows| - |working.rows|;
      if rowcount == 0 {
        outcome := NotFound(id);
      } else {
        ativos := working;
        outcome := Deleted(id);
      }
    }
  }
}
