/**
 * AlertaRepository (a JPA repository with identity-generated ids) as an id-keyed
 * table of row snapshots and the next id to hand out. Whether the database accepts
 * a write is the caller's parameter.
 */
module Repository {
  import opened Wrappers
  import opened Entities

  /** What the database does with one `save`: store it, or fail with an exception's message. */
  datatype SaveOutcome = Stored | StoreFault(message: string)

  class AlertaRepository {
    var rows: map<nat, AlertaRow>
    var nextId: nat

    /** Every stored row sits under its own id, and every id handed out is below `nextId`. */
    predicate Valid()
      reads this
    {
      forall id :: id in rows ==> id < nextId && rows[id].idAlerta == Some(id)
    }

    constructor()
      ensures Valid() && rows == map[] && nextId == 1
    {
      rows := map[];
      nextId := 1;
    }

    /**
     * `save(alerta)`: a new alert (null id) gets the next id and is inserted; an alert
     * with an id overwrites the row under that id. On a fault nothing changes.
     */
    method Save(alerta: Alerta, outcome: SaveOutcome) returns (ok: bool)
      requires Valid()
      modifies this, alerta
      ensures Valid()
      ensures ok <==> outcome.Stored?
      ensures !ok ==> rows == old(rows) && nextId == old(nextId) && alerta.Row() == old(alerta.Row())
      ensures ok && old(alerta.idAlerta).None? ==>
        && alerta.Row() == old(alerta.Row()).(idAlerta := Some(old(nextId)))
        && rows == old(rows)[old(nextId) := alerta.Row()]
        && nextId == old(nextId) + 1
      ensures ok && old(alerta.idAlerta).Some? ==>
        && alerta.Row() == old(alerta.Row())
        && rows == old(rows)[alerta.idAlerta.value := alerta.Row()]
        && nextId == if alerta.idAlerta.value < old(nextId) then old(nextId) else alerta.idAlerta.value + 1
    {
      if outcome.StoreFault? {
        return false;
      }
      match alerta.idAlerta {
        case None =>
          alerta.idAlerta := Some(nextId);
          rows := rows[nextId := alerta.Row()];
          nextId := nextId + 1;
        case Some(id) =>
          rows := rows[id := alerta.Row()];
          if id >= nextId {
            nextId := id + 1;
          }
      }
      return true;
    }
  }
}
