/** `DBManager` (personal/model/model.py): every write either commits one
    change or, when a constraint rejects it, reports the error and leaves the
    database as it was. A call is a pure function from the store before to
    the store after plus the `(ok, value)` pair it returns.
 */
module Db {
  import opened Results
  import opened Text
  import opened Tables
  import opened Schema
  import opened Contacts

  datatype Reply<T> = Reply(store: Store, result: Result<T>)

  // ---------------------------------------------------------------------
  // Tipo de relación
  // ---------------------------------------------------------------------

  function AltaTipoRelacion(s: Store, relacion: string): (r: Reply<int>)
    ensures r.result.Err? <==> RelacionTaken(s.tipos, relacion, None)
    ensures r.result.Err? ==> r.store == s && r.result.error == Unique("relacion")
    ensures r.result.Ok? ==>
      && Added(s.tipos, r.store.tipos, r.result.value, TipoRelacion(relacion))
      && r.store == s.(tipos := r.store.tipos)
    ensures Valid(s) ==> Valid(r.store)
  {
    if RelacionTaken(s.tipos, relacion, None) then Reply(s, Err(Unique("relacion")))
    else
      var (t, id) := Insert(s.tipos, TipoRelacion(relacion));
      Reply(s.(tipos := t), Ok(id))
  }

  /** `baja_tipo_relacion`: the type row goes and, because `t_rel_persona`
      is a plain one-to-many relationship, the ORM first sets
      `tipo_relacion_id` to NULL on every person that refers to it. */
  function BajaTipoRelacion(s: Store, id: int): (r: Reply<()>)
    ensures r.result.Err? <==> id !in s.tipos
    ensures r.result.Err? ==> r.store == s && r.result.error == NoSuchRow
    ensures r.result.Ok? ==>
      && r.store == s.(tipos := s.tipos - {id}, personas := r.store.personas)
      && r.store.personas.Keys == s.personas.Keys
      && forall k :: k in s.personas ==>
           r.store.personas[k] == if s.personas[k].tipoRelacionId == Some(id)
                                  then s.personas[k].(tipoRelacionId := None)
                                  else s.personas[k]
    ensures r.result.Ok? ==> forall k :: k in r.store.personas ==> r.store.personas[k].tipoRelacionId != Some(id)
    ensures Valid(s) ==> Valid(r.store)
  {
    if id !in s.tipos then Reply(s, Err(NoSuchRow))
    else
      var personas := map k | k in s.personas ::
        if s.personas[k].tipoRelacionId == Some(id) then s.personas[k].(tipoRelacionId := None) else s.personas[k];
      Reply(s.(tipos := s.tipos - {id}, personas := personas), Ok(()))
  }

  function ModificarTipoRelacion(s: Store, id: int, nueva: string): (r: Reply<int>)
    requires id in s.tipos
    ensures r.result.Err? <==> RelacionTaken(s.tipos, nueva, Some(id))
    ensures r.result.Err? ==> r.store == s && r.result.error == Unique("relacion")
    ensures r.result.Ok? ==> r.result.value == id && r.store == s.(tipos := s.tipos[id := TipoRelacion(nueva)])
    ensures Valid(s) ==> Valid(r.store)
  {
    if RelacionTaken(s.tipos, nueva, Some(id)) then Reply(s, Err(Unique("relacion")))
    else Reply(s.(tipos := s.tipos[id := TipoRelacion(nueva)]), Ok(id))
  }

  /** Every relationship type with its id; the query cannot fail. */
  function ObtenerTodosTiposRelacion(s: Store): (r: Result<map<int, TipoRelacion>>)
    ensures r.Ok? && r.value == s.tipos
  {
    Ok(s.tipos)
  }

  // ---------------------------------------------------------------------
  // Teléfono
  // ---------------------------------------------------------------------

  function AltaTelefono(s: Store, personaId: int, numero: string, preferencia: int, observ: Option<string>): (r: Reply<int>)
    ensures r.result.Err? <==> !PreferenciaOk(preferencia)
    ensures r.result.Err? ==> r.store == s && r.result.error == Check("check_preferencia")
    ensures r.result.Ok? ==>
      && Added(s.telefonos, r.store.telefonos, r.result.value, Contact(personaId, numero, preferencia, observ))
      && r.store == s.(telefonos := r.store.telefonos)
    ensures Valid(s) ==> Valid(r.store)
  {
    var (t, res) := Add(s.telefonos, Contact(personaId, numero, preferencia, observ));
    Reply(s.(telefonos := t), res)
  }

  function BajaTelefono(s: Store, id: int): (r: Reply<()>)
    ensures r.result.Err? <==> id !in s.telefonos
    ensures r.result.Err? ==> r.store == s && r.result.error == NoSuchRow
    ensures r.result.Ok? ==> r.store == s.(telefonos := s.telefonos - {id})
    ensures Valid(s) ==> Valid(r.store)
  {
    var (t, res) := Remove(s.telefonos, id);
    Reply(s.(telefonos := t), res)
  }

  function ModificarTelefono(s: Store, id: int, numero: string, preferencia: int, observ: Option<string>): (r: Reply<int>)
    requires id in s.telefonos
    ensures r.result.Err? <==> !PreferenciaOk(preferencia)
    ensures r.result.Err? ==> r.store == s && r.result.error == Check("check_preferencia")
    ensures r.result.Ok? ==>
      && r.result.value == id
      && r.store == s.(telefonos := s.telefonos[id := Contact(s.telefonos[id].personaId, numero, preferencia, observ)])
    ensures Valid(s) ==> Valid(r.store)
  {
    var (t, res) := Update(s.telefonos, id, numero, preferencia, observ);
    Reply(s.(telefonos := t), res)
  }

  function ModificarPreferenciaTlfno(s: Store, keep: int, personaId: int): (r: Reply<()>)
    ensures r.result.Ok?
    ensures ClearedExcept(s.telefonos, r.store.telefonos, keep, personaId)
    ensures r.store == s.(telefonos := r.store.telefonos)
    ensures Valid(s) ==> Valid(r.store)
  {
    Reply(s.(telefonos := ClearOthers(s.telefonos, keep, personaId)), Ok(()))
  }

  function ObtenerTelefonosPorPersonaId(s: Store, personaId: int): (r: Result<Table<string>>)
    ensures r.Ok?
    ensures forall id :: id in r.value <==> id in s.telefonos && s.telefonos[id].personaId == personaId
    ensures forall id :: id in r.value ==> r.value[id] == s.telefonos[id]
  {
    Ok(OfPersona(s.telefonos, personaId))
  }

  // ---------------------------------------------------------------------
  // Mail
  // ---------------------------------------------------------------------

  function AltaMail(s: Store, personaId: int, mail: string, preferencia: int, observ: Option<string>): (r: Reply<int>)
    ensures r.result.Err? <==> !PreferenciaOk(preferencia)
    ensures r.result.Err? ==> r.store == s && r.result.error == Check("check_preferencia")
    ensures r.result.Ok? ==>
      && Added(s.mails, r.store.mails, r.result.value, Contact(personaId, mail, preferencia, observ))
      && r.store == s.(mails := r.store.mails)
    ensures Valid(s) ==> Valid(r.store)
  {
    var (t, res) := Add(s.mails, Contact(personaId, mail, preferencia, observ));
    Reply(s.(mails := t), res)
  }

  function BajaMail(s: Store, id: int): (r: Reply<()>)
    ensures r.result.Err? <==> id !in s.mails
    ensures r.result.Err? ==> r.store == s && r.result.error == NoSuchRow
    ensures r.result.Ok? ==> r.store == s.(mails := s.mails - {id})
    ensures Valid(s) ==> Valid(r.store)
  {
    var (t, res) := Remove(s.mails, id);
    Reply(s.(mails := t), res)
  }

  function ModificarMail(s: Store, id: int, mail: string, preferencia: int, observ: Option<string>): (r: Reply<int>)
    requires id in s.mails
    ensures r.result.Err? <==> !PreferenciaOk(preferencia)
    ensures r.result.Err? ==> r.store == s && r.result.error == Check("check_preferencia")
    ensures r.result.Ok? ==>
      && r.result.value == id
      && r.store == s.(mails := s.mails[id := Contact(s.mails[id].personaId, mail, preferencia, observ)])
    ensures Valid(s) ==> Valid(r.store)
  {
    var (t, res) := Update(s.mails, id, mail, preferencia, observ);
    Reply(s.(mails := t), res)
  }

  function ModificarPreferenciaMail(s: Store, keep: int, personaId: int): (r: Reply<()>)
    ensures r.result.Ok?
    ensures ClearedExcept(s.mails, r.store.mails, keep, personaId)
    ensures r.store == s.(mails := r.store.mails)
    ensures Valid(s) ==> Valid(r.store)
  {
    Reply(s.(mails := ClearOthers(s.mails, keep, personaId)), Ok(()))
  }

  function ObtenerMailsPorPersonaId(s: Store, personaId: int): (r: Result<Table<string>>)
    ensures r.Ok?
    ensures forall id :: id in r.value <==> id in s.mails && s.mails[id].personaId == personaId
    ensures forall id :: id in r.value ==> r.value[id] == s.mails[id]
  {
    Ok(OfPersona(s.mails, personaId))
  }

  // ---------------------------------------------------------------------
  // Dirección
  // ---------------------------------------------------------------------

  function AltaDireccion(s: Store, personaId: int, direccion: string, cpId: int, preferencia: int, observ: Option<string>): (r: Reply<int>)
    ensures r.result.Err? <==> !PreferenciaOk(preferencia)
    ensures r.result.Err? ==> r.store == s && r.result.error == Check("check_preferencia")
    ensures r.result.Ok? ==>
      && Added(s.direcciones, r.store.direcciones, r.result.value, Contact(personaId, Postal(direccion, cpId), preferencia, observ))
      && r.store == s.(direcciones := r.store.direcciones)
    ensures Valid(s) ==> Valid(r.store)
  {
    var (t, res) := Add(s.direcciones, Contact(personaId, Postal(direccion, cpId), preferencia, observ));
    Reply(s.(direcciones := t), res)
  }

  function BajaDireccion(s: Store, id: int): (r: Reply<()>)
    ensures r.result.Err? <==> id !in s.direcciones
    ensures r.result.Err? ==> r.store == s && r.result.error == NoSuchRow
    ensures r.result.Ok? ==> r.store == s.(direcciones := s.direcciones - {id})
    ensures Valid(s) ==> Valid(r.store)
  {
    var (t, res) := Remove(s.direcciones, id);
    Reply(s.(direcciones := t), res)
  }

  function ModificarDireccion(s: Store, id: int, direccion: string, cpId: int, preferencia: int, observ: Option<string>): (r: Reply<int>)
    requires id in s.direcciones
    ensures r.result.Err? <==> !PreferenciaOk(preferencia)
    ensures r.result.Err? ==> r.store == s && r.result.error == Check("check_preferencia")
    ensures r.result.Ok? ==>
      && r.result.value == id
      && r.store == s.(direcciones := s.direcciones[id := Contact(s.direcciones[id].personaId, Postal(direccion, cpId), preferencia, observ)])
    ensures Valid(s) ==> Valid(r.store)
  {
    var (t, res) := Update(s.direcciones, id, Postal(direccion, cpId), preferencia, observ);
    Reply(s.(direcciones := t), res)
  }

  function ModificarPreferenciaDireccion(s: Store, keep: int, personaId: int): (r: Reply<()>)
    ensures r.result.Ok?
    ensures ClearedExcept(s.direcciones, r.store.direcciones, keep, personaId)
    ensures r.store == s.(direcciones := r.store.direcciones)
    ensures Valid(s) ==> Valid(r.store)
  {
    Reply(s.(direcciones := ClearOthers(s.direcciones, keep, personaId)), Ok(()))
  }

  function ObtenerDireccionesPorPersonaId(s: Store, personaId: int): (r: Result<Table<Postal>>)
    ensures r.Ok?
    ensures forall id :: id in r.value <==> id in s.direcciones && s.direcciones[id].personaId == personaId
    ensures forall id :: id in r.value ==> r.value[id] == s.direcciones[id]
  {
    Ok(OfPersona(s.direcciones, personaId))
  }

  // ---------------------------------------------------------------------
  // Código postal
  // ---------------------------------------------------------------------

  function AltaCodigoPostal(s: Store, cp: string, localidad: string, provincia: string): (r: Reply<int>)
    ensures r.result.Err? <==> |cp| != 5 || CpTaken(s.codigos, cp, None)
    ensures |cp| != 5 ==> r.result == Err(Check("check_cp"))
    ensures |cp| == 5 && CpTaken(s.codigos, cp, None) ==> r.result == Err(Unique("cp"))
    ensures r.result.Err? ==> r.store == s
    ensures r.result.Ok? ==>
      && Added(s.codigos, r.store.codigos, r.result.value, CodigoPostal(cp, localidad, provincia))
      && r.store == s.(codigos := r.store.codigos)
    ensures Valid(s) ==> Valid(r.store)
  {
    var row := CodigoPostal(cp, localidad, provincia);
    if !CodigoOk(row) then Reply(s, Err(Check("check_cp")))
    else if CpTaken(s.codigos, cp, None) then Reply(s, Err(Unique("cp")))
    else
      var (t, id) := Insert(s.codigos, row);
      Reply(s.(codigos := t), Ok(id))
  }

  function ModificarCodigoPostal(s: Store, id: int, cp: string, localidad: string, provincia: string): (r: Reply<int>)
    requires id in s.codigos
    ensures r.result.Err? <==> |cp| != 5 || CpTaken(s.codigos, cp, Some(id))
    ensures |cp| != 5 ==> r.result == Err(Check("check_cp"))
    ensures |cp| == 5 && CpTaken(s.codigos, cp, Some(id)) ==> r.result == Err(Unique("cp"))
    ensures r.result.Err? ==> r.store == s
    ensures r.result.Ok? ==>
      r.result.value == id && r.store == s.(codigos := s.codigos[id := CodigoPostal(cp, localidad, provincia)])
    ensures Valid(s) ==> Valid(r.store)
  {
    var row := CodigoPostal(cp, localidad, provincia);
    if !CodigoOk(row) then Reply(s, Err(Check("check_cp")))
    else if CpTaken(s.codigos, cp, Some(id)) then Reply(s, Err(Unique("cp")))
    else Reply(s.(codigos := s.codigos[id := row]), Ok(id))
  }

  /** `filter_by(id_=…).first()`: the row, or nothing when there is none. */
  function ObtenerCodigoPostalPorId(s: Store, id: int): (r: Result<Option<CodigoPostal>>)
    ensures r.Ok?
    ensures r.value.Some? <==> id in s.codigos
    ensures r.value.Some? ==> r.value.value == s.codigos[id]
  {
    if id in s.codigos then Ok(Some(s.codigos[id])) else Ok(None)
  }

  /** `filter_by(cp=…).first()`: a row carrying exactly this code, with its
      id, or nothing when no row does. Of several, the lowest id is taken;
      in a valid store there is never more than one. */
  function ObtenerCodigoPostalPorCp(s: Store, cp: string): (r: Result<Option<(int, CodigoPostal)>>)
    ensures r.Ok?
    ensures r.value.None? <==> !CpTaken(s.codigos, cp, None)
    ensures r.value.Some? ==>
      && r.value.value.0 in s.codigos
      && r.value.value.1 == s.codigos[r.value.value.0]
      && r.value.value.1.cp == cp
    ensures r.value.Some? && CodigosOk(s.codigos) ==>
      forall id :: id in s.codigos && s.codigos[id].cp == cp ==> id == r.value.value.0
  {
    var ids := set id | id in s.codigos && s.codigos[id].cp == cp;
    if ids == {} then
      assert forall id :: id in s.codigos && s.codigos[id].cp == cp ==> id in ids;
      Ok(None)
    else
      var id := MinOf(ids);
      Ok(Some((id, s.codigos[id])))
  }

  // ---------------------------------------------------------------------
  // Persona
  // ---------------------------------------------------------------------

  /** `alta_persona`: notes and both relation columns start NULL. */
  function AltaPersona(s: Store, nif: Option<string>, nombre: Option<string>, ap1: Option<string>, ap2: Option<string>,
                       fnac: Option<string>, foto: Option<Bytes>, sexo: Option<string>): (r: Reply<int>)
    ensures var row := Persona(nif, nombre, ap1, ap2, fnac, None, None, None, foto, sexo);
      && (r.result.Err? <==> !PersonaOk(row) || NifTaken(s.personas, nif, None))
      && (!PersonaOk(row) ==> r.result == Err(PersonaViolation(row).value))
      && (PersonaOk(row) && NifTaken(s.personas, nif, None) ==> r.result == Err(Unique("nif")))
      && (r.result.Ok? ==> Added(s.personas, r.store.personas, r.result.value, row))
    ensures r.result.Err? ==> r.store == s
    ensures r.store == s.(personas := r.store.personas)
    ensures Valid(s) ==> Valid(r.store)
  {
    var row := Persona(nif, nombre, ap1, ap2, fnac, None, None, None, foto, sexo);
    match PersonaViolation(row)
    case Some(e) => Reply(s, Err(e))
    case None =>
      if NifTaken(s.personas, nif, None) then Reply(s, Err(Unique("nif")))
      else
        var (t, id) := Insert(s.personas, row);
        Reply(s.(personas := t), Ok(id))
  }

  /** `baja_persona`: the person goes and, through the ORM cascade, every
      phone, mail and address it owns. */
  function BajaPersona(s: Store, id: int): (r: Reply<()>)
    ensures r.result.Err? <==> id !in s.personas
    ensures r.result.Err? ==> r.store == s && r.result.error == NoSuchRow
    ensures r.result.Ok? ==>
      && r.store.personas == s.personas - {id}
      && r.store.telefonos == DropPersona(s.telefonos, id)
      && r.store.mails == DropPersona(s.mails, id)
      && r.store.direcciones == DropPersona(s.direcciones, id)
      && r.store.codigos == s.codigos
      && r.store.tipos == s.tipos
    ensures Valid(s) ==> Valid(r.store)
  {
    if id !in s.personas then Reply(s, Err(NoSuchRow))
    else
      Reply(Store(s.personas - {id}, DropPersona(s.telefonos, id), DropPersona(s.mails, id),
                  DropPersona(s.direcciones, id), s.codigos, s.tipos), Ok(()))
  }

  /** `modificar_persona`: every column is overwritten with the new values. */
  function ModificarPersona(s: Store, id: int, nif: Option<string>, nombre: Option<string>, ap1: Option<string>,
                            ap2: Option<string>, fnac: Option<string>, foto: Option<Bytes>, sexo: Option<string>,
                            observ: Option<string>, tipoRelacionId: Option<int>, relacionadoCon: Option<int>): (r: Reply<int>)
    requires id in s.personas
    ensures var row := Persona(nif, nombre, ap1, ap2, fnac, relacionadoCon, tipoRelacionId, observ, foto, sexo);
      && (r.result.Err? <==> !PersonaOk(row) || NifTaken(s.personas, nif, Some(id)))
      && (!PersonaOk(row) ==> r.result == Err(PersonaViolation(row).value))
      && (PersonaOk(row) && NifTaken(s.personas, nif, Some(id)) ==> r.result == Err(Unique("nif")))
      && (r.result.Ok? ==> r.result.value == id && r.store.personas == s.personas[id := row])
    ensures r.result.Err? ==> r.store == s
    ensures r.store == s.(personas := r.store.personas)
    ensures Valid(s) ==> Valid(r.store)
  {
    var row := Persona(nif, nombre, ap1, ap2, fnac, relacionadoCon, tipoRelacionId, observ, foto, sexo);
    match PersonaViolation(row)
    case Some(e) => Reply(s, Err(e))
    case None =>
      if NifTaken(s.personas, nif, Some(id)) then Reply(s, Err(Unique("nif")))
      else Reply(s.(personas := s.personas[id := row]), Ok(id))
  }

  /** Every person with its id; the query cannot fail. */
  function ObtenerTodasPersonas(s: Store): (r: Result<map<int, Persona>>)
    ensures r.Ok? && r.value == s.personas
  {
    Ok(s.personas)
  }

  function ObtenerPersonaPorId(s: Store, id: int): (r: Result<Option<Persona>>)
    ensures r.Ok?
    ensures r.value.Some? <==> id in s.personas
    ensures r.value.Some? ==> r.value.value == s.personas[id]
  {
    if id in s.personas then Ok(Some(s.personas[id])) else Ok(None)
  }
}
