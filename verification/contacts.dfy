/** The operations `telefono`, `mail` and `direccion` share, written once
    over `Contact<V>` (personal/model/model.py, the `alta_*`, `baja_*`,
    `modificar_*`, `modificar_preferencia_*` and `obtener_*_por_persona_id`
    methods of the three contact sections).
 */
module Contacts {
  import opened Results
  import opened Tables
  import opened Schema

  type Table<V> = map<int, Contact<V>>

  /** No person has two preferred rows in `t`. */
  ghost predicate AtMostOnePreferred<V>(t: Table<V>) {
    forall i, j ::
      (i in t && j in t && t[i].personaId == t[j].personaId &&
       t[i].preferencia == 1 && t[j].preferencia == 1) ==> i == j
  }

  /** As `AtMostOnePreferred`, for every person except `p`. */
  ghost predicate AtMostOnePreferredBut<V>(t: Table<V>, p: int) {
    forall i, j ::
      (i in t && j in t && t[i].personaId == t[j].personaId && t[i].personaId != p &&
       t[i].preferencia == 1 && t[j].preferencia == 1) ==> i == j
  }

  /** Row `id` is preferred and is the only preferred row of person `p`. */
  ghost predicate OnlyPreferred<V>(t: Table<V>, p: int, id: int) {
    && id in t && t[id].personaId == p && t[id].preferencia == 1
    && forall j :: j in t && t[j].personaId == p && t[j].preferencia == 1 ==> j == id
  }

  /** `after` is `before` with the preferred flag of every row of person
      `p` other than `keep` set to 0, and nothing else changed. */
  ghost predicate ClearedExcept<V>(before: Table<V>, after: Table<V>, keep: int, p: int) {
    && after.Keys == before.Keys
    && (forall id :: id in before ==> after[id].(preferencia := before[id].preferencia) == before[id])
    && (forall id :: id in before && before[id].personaId == p && id != keep ==> after[id].preferencia == 0)
    && (forall id :: id in before && (before[id].personaId != p || id == keep) ==> after[id] == before[id])
  }

  /** `alta_*`: insert a row; `check_preferencia` decides success. */
  function Add<V>(t: Table<V>, row: Contact<V>): (r: (Table<V>, Result<int>))
    ensures r.1.Err? <==> !PreferenciaOk(row.preferencia)
    ensures r.1.Err? ==> r.0 == t && r.1.error == Check("check_preferencia")
    ensures r.1.Ok? ==> Added(t, r.0, r.1.value, row)
    ensures ContactsOk(t) ==> ContactsOk(r.0)
  {
    if !PreferenciaOk(row.preferencia) then (t, Err(Check("check_preferencia")))
    else
      var (t', id) := Insert(t, row);
      (t', Ok(id))
  }

  /** `baja_*`: delete row `id`; deleting a missing row is an error. */
  function Remove<V>(t: Table<V>, id: int): (r: (Table<V>, Result<()>))
    ensures r.1.Err? <==> id !in t
    ensures r.1.Err? ==> r.0 == t && r.1.error == NoSuchRow
    ensures r.1.Ok? ==> r.0.Keys == t.Keys - {id} && forall k :: k in r.0 ==> r.0[k] == t[k]
    ensures ContactsOk(t) ==> ContactsOk(r.0)
  {
    if id !in t then (t, Err(NoSuchRow)) else (t - {id}, Ok(()))
  }

  /** `modificar_*`: overwrite value, flag and notes of row `id`; the owner stays. */
  function Update<V>(t: Table<V>, id: int, value: V, preferencia: int, observ: Option<string>): (r: (Table<V>, Result<int>))
    requires id in t
    ensures r.1.Err? <==> !PreferenciaOk(preferencia)
    ensures r.1.Err? ==> r.0 == t && r.1.error == Check("check_preferencia")
    ensures r.1.Ok? ==> r.1.value == id && r.0 == t[id := Contact(t[id].personaId, value, preferencia, observ)]
    ensures ContactsOk(t) ==> ContactsOk(r.0)
  {
    if !PreferenciaOk(preferencia) then (t, Err(Check("check_preferencia")))
    else (t[id := t[id].(value := value, preferencia := preferencia, observ := observ)], Ok(id))
  }

  /** `modificar_preferencia_*`: `UPDATE … SET preferencia = 0 WHERE persona_id = p AND id_ != keep`. */
  function ClearOthers<V>(t: Table<V>, keep: int, p: int): (r: Table<V>)
    ensures ClearedExcept(t, r, keep, p)
    ensures ContactsOk(t) ==> ContactsOk(r)
  {
    map id | id in t :: if t[id].personaId == p && id != keep then t[id].(preferencia := 0) else t[id]
  }

  /** `filter_by(persona_id=p)`: exactly the rows of person `p`, unchanged. */
  function OfPersona<V>(t: Table<V>, p: int): (r: Table<V>)
    ensures forall id :: id in r <==> id in t && t[id].personaId == p
    ensures forall id :: id in r ==> r[id] == t[id]
  {
    map id | id in t && t[id].personaId == p :: t[id]
  }

  /** The ORM's `delete-orphan` cascade when person `p` goes: every row of
      `p` is removed, every other row stays as it was. */
  function DropPersona<V>(t: Table<V>, p: int): (r: Table<V>)
    ensures forall id :: id in r <==> id in t && t[id].personaId != p
    ensures forall id :: id in r ==> r[id] == t[id]
    ensures ContactsOk(t) ==> ContactsOk(r)
  {
    map id | id in t && t[id].personaId != p :: t[id]
  }

  // ---------------------------------------------------------------------
  // The single-preferred invariant across the writes a dialog performs
  // ---------------------------------------------------------------------

  /** Clearing every other row of `p` leaves `p` with at most one preferred
      row; other persons are as they were. */
  lemma ClearOthersRestores<V>(t: Table<V>, keep: int, p: int)
    requires AtMostOnePreferredBut(t, p)
    ensures AtMostOnePreferred(ClearOthers(t, keep, p))
  {
    var r := ClearOthers(t, keep, p);
    forall i, j |
      i in r && j in r && r[i].personaId == r[j].personaId &&
      r[i].preferencia == 1 && r[j].preferencia == 1
      ensures i == j
    {
      if r[i].personaId == p {
        assert i == keep && j == keep;
      } else {
        assert r[i] == t[i] && r[j] == t[j];
      }
    }
  }

  /** After clearing, a preferred `keep` of person `p` is that person's only preferred row. */
  lemma ClearOthersSingles<V>(t: Table<V>, keep: int, p: int)
    requires keep in t && t[keep].personaId == p && t[keep].preferencia == 1
    ensures OnlyPreferred(ClearOthers(t, keep, p), p, keep)
  {
  }

  /** Adding a row can only break the invariant for the row's own person,
      and cannot break it at all when the row is not preferred. */
  lemma AddKeeps<V>(t: Table<V>, row: Contact<V>)
    requires AtMostOnePreferred(t)
    ensures AtMostOnePreferredBut(Add(t, row).0, row.personaId)
    ensures row.preferencia != 1 ==> AtMostOnePreferred(Add(t, row).0)
  {
  }

  /** Updating row `id` can only break the invariant for its owner, and not
      at all when the new flag is not 1. */
  lemma UpdateKeeps<V>(t: Table<V>, id: int, value: V, preferencia: int, observ: Option<string>)
    requires id in t && AtMostOnePreferred(t)
    ensures AtMostOnePreferredBut(Update(t, id, value, preferencia, observ).0, t[id].personaId)
    ensures preferencia != 1 ==> AtMostOnePreferred(Update(t, id, value, preferencia, observ).0)
  {
  }

  /** Removing a row keeps the invariant. */
  lemma RemoveKeeps<V>(t: Table<V>, id: int)
    requires AtMostOnePreferred(t)
    ensures AtMostOnePreferred(Remove(t, id).0)
  {
  }
}
