/** How the `DBManager` calls of personal/model/model.py fit together:
    what a write leaves for the reads, which writes undo each other, and
    which second write the UNIQUE constraints turn away.
 */
module DbLemmas {
  import opened Results
  import opened Text
  import opened Schema
  import opened Contacts
  import opened Db

  /** A person just added is what `obtener_persona_por_id` returns for the
      new id, with notes and relations NULL, and the table gained that one id. */
  lemma {:induction false} AltaPersonaLeida(s: Store, nif: Option<string>, nombre: Option<string>, ap1: Option<string>,
                                            ap2: Option<string>, fnac: Option<string>, foto: Option<Bytes>, sexo: Option<string>)
    requires AltaPersona(s, nif, nombre, ap1, ap2, fnac, foto, sexo).result.Ok?
    ensures var r := AltaPersona(s, nif, nombre, ap1, ap2, fnac, foto, sexo);
      && ObtenerPersonaPorId(r.store, r.result.value) == Ok(Some(Persona(nif, nombre, ap1, ap2, fnac, None, None, None, foto, sexo)))
      && ObtenerTodasPersonas(r.store).value.Keys == s.personas.Keys + {r.result.value}
      && ObtenerPersonaPorId(s, r.result.value) == Ok(None)
  {
  }

  /** Once a NIF is in the table, adding a person whose NIF differs from it
      only in letter case is turned away by the UNIQUE constraint. */
  lemma {:induction false} NifRepetido(s: Store, nif: string, nombre: Option<string>, ap1: Option<string>,
                                       ap2: Option<string>, fnac: Option<string>, foto: Option<Bytes>, sexo: Option<string>,
                                       otroNif: string, otroNombre: Option<string>, otroAp1: Option<string>,
                                       otroAp2: Option<string>, otraFnac: Option<string>, otraFoto: Option<Bytes>,
                                       otroSexo: Option<string>)
    requires AltaPersona(s, Some(nif), nombre, ap1, ap2, fnac, foto, sexo).result.Ok?
    requires NoCaseEq(nif, otroNif)
    requires PersonaOk(Persona(Some(otroNif), otroNombre, otroAp1, otroAp2, otraFnac, None, None, None, otraFoto, otroSexo))
    ensures var r := AltaPersona(s, Some(nif), nombre, ap1, ap2, fnac, foto, sexo);
      var r2 := AltaPersona(r.store, Some(otroNif), otroNombre, otroAp1, otroAp2, otraFnac, otraFoto, otroSexo);
      r2.result == Err(Unique("nif")) && r2.store == r.store
  {
    var r := AltaPersona(s, Some(nif), nombre, ap1, ap2, fnac, foto, sexo);
    var id := r.result.value;
    assert id in r.store.personas && r.store.personas[id].nif == Some(nif);
    assert NifTaken(r.store.personas, Some(otroNif), None);
  }

  /** `baja_persona` leaves the deleted person with no phone, mail or
      address, and every other person with exactly the ones they had. */
  lemma {:induction false} BajaPersonaContactos(s: Store, id: int, otra: int)
    requires id in s.personas && otra != id
    ensures var t := BajaPersona(s, id).store;
      && ObtenerTelefonosPorPersonaId(t, id) == Ok(map[])
      && ObtenerMailsPorPersonaId(t, id) == Ok(map[])
      && ObtenerDireccionesPorPersonaId(t, id) == Ok(map[])
      && ObtenerTelefonosPorPersonaId(t, otra) == ObtenerTelefonosPorPersonaId(s, otra)
      && ObtenerMailsPorPersonaId(t, otra) == ObtenerMailsPorPersonaId(s, otra)
      && ObtenerDireccionesPorPersonaId(t, otra) == ObtenerDireccionesPorPersonaId(s, otra)
  {
    var t := BajaPersona(s, id).store;
    SinFilas(t.telefonos, id);
    SinFilas(t.mails, id);
    SinFilas(t.direcciones, id);
    MismasFilas(s.telefonos, t.telefonos, id, otra);
    MismasFilas(s.mails, t.mails, id, otra);
    MismasFilas(s.direcciones, t.direcciones, id, otra);
  }

  lemma SinFilas<V>(t: Table<V>, p: int)
    requires forall k :: k in t ==> t[k].personaId != p
    ensures OfPersona(t, p) == map[]
  {
    assert forall k :: k !in OfPersona(t, p);
    assert OfPersona(t, p).Keys == {};
  }

  lemma MismasFilas<V>(t: Table<V>, u: Table<V>, p: int, q: int)
    requires u == DropPersona(t, p) && q != p
    ensures OfPersona(u, q) == OfPersona(t, q)
  {
    assert OfPersona(u, q).Keys == OfPersona(t, q).Keys;
  }

  /** Deleting a phone just added gives the store back; likewise for mails
      and addresses. */
  lemma {:induction false} AltaBajaContactos(s: Store, personaId: int, texto: string, cpId: int, preferencia: int, observ: Option<string>)
    requires PreferenciaOk(preferencia)
    ensures var r := AltaTelefono(s, personaId, texto, preferencia, observ);
      r.result.Ok? && BajaTelefono(r.store, r.result.value) == Reply(s, Ok(()))
    ensures var r := AltaMail(s, personaId, texto, preferencia, observ);
      r.result.Ok? && BajaMail(r.store, r.result.value) == Reply(s, Ok(()))
    ensures var r := AltaDireccion(s, personaId, texto, cpId, preferencia, observ);
      r.result.Ok? && BajaDireccion(r.store, r.result.value) == Reply(s, Ok(()))
  {
    var r1 := AltaTelefono(s, personaId, texto, preferencia, observ);
    assert r1.store.telefonos - {r1.result.value} == s.telefonos;
    var r2 := AltaMail(s, personaId, texto, preferencia, observ);
    assert r2.store.mails - {r2.result.value} == s.mails;
    var r3 := AltaDireccion(s, personaId, texto, cpId, preferencia, observ);
    assert r3.store.direcciones - {r3.result.value} == s.direcciones;
  }

  /** A phone just changed reads back with the new values under its owner. */
  lemma {:induction false} ModificarTelefonoLeido(s: Store, id: int, numero: string, preferencia: int, observ: Option<string>)
    requires id in s.telefonos && PreferenciaOk(preferencia)
    ensures var r := ModificarTelefono(s, id, numero, preferencia, observ);
      var p := s.telefonos[id].personaId;
      && id in ObtenerTelefonosPorPersonaId(r.store, p).value
      && ObtenerTelefonosPorPersonaId(r.store, p).value[id] == Contact(p, numero, preferencia, observ)
  {
  }

  /** In a valid store a postal code just added is the row
      `obtener_codigo_postal_por_cp` finds for that code. */
  lemma {:induction false} AltaCodigoPostalEncontrado(s: Store, cp: string, localidad: string, provincia: string)
    requires Valid(s)
    requires AltaCodigoPostal(s, cp, localidad, provincia).result.Ok?
    ensures var r := AltaCodigoPostal(s, cp, localidad, provincia);
      ObtenerCodigoPostalPorCp(r.store, cp) == Ok(Some((r.result.value, CodigoPostal(cp, localidad, provincia))))
  {
    var r := AltaCodigoPostal(s, cp, localidad, provincia);
    var id := r.result.value;
    assert r.store.codigos[id].cp == cp;
    assert CpTaken(r.store.codigos, cp, None);
    var q := ObtenerCodigoPostalPorCp(r.store, cp);
    assert q.value.Some?;
    assert q.value.value.0 == id;
  }

  /** A code no row holds can be added, and a second add of it is refused. */
  lemma {:induction false} CodigoPostalRepetido(s: Store, cp: string, localidad: string, provincia: string,
                                                otraLocalidad: string, otraProvincia: string)
    requires |cp| == 5 && ObtenerCodigoPostalPorCp(s, cp) == Ok(None)
    ensures var r := AltaCodigoPostal(s, cp, localidad, provincia);
      && r.result.Ok?
      && AltaCodigoPostal(r.store, cp, otraLocalidad, otraProvincia) == Reply(r.store, Err(Unique("cp")))
  {
    var r := AltaCodigoPostal(s, cp, localidad, provincia);
    assert r.store.codigos[r.result.value].cp == cp;
  }

  /** A relationship type is refused when one differing only in letter case exists. */
  lemma {:induction false} TipoRelacionRepetido(s: Store, relacion: string, otra: string)
    requires AltaTipoRelacion(s, relacion).result.Ok? && NoCaseEq(relacion, otra)
    ensures var r := AltaTipoRelacion(s, relacion);
      AltaTipoRelacion(r.store, otra) == Reply(r.store, Err(Unique("relacion")))
  {
    var r := AltaTipoRelacion(s, relacion);
    assert r.store.tipos[r.result.value].relacion == relacion;
  }

  /** After `modificar_preferencia_*` keeping a preferred row, that row is
      its owner's only preferred one, in each of the three tables. */
  lemma {:induction false} PreferenciaUnica(s: Store, keep: int)
    ensures keep in s.telefonos && s.telefonos[keep].preferencia == 1 ==>
      OnlyPreferred(ModificarPreferenciaTlfno(s, keep, s.telefonos[keep].personaId).store.telefonos,
                    s.telefonos[keep].personaId, keep)
    ensures keep in s.mails && s.mails[keep].preferencia == 1 ==>
      OnlyPreferred(ModificarPreferenciaMail(s, keep, s.mails[keep].personaId).store.mails,
                    s.mails[keep].personaId, keep)
    ensures keep in s.direcciones && s.direcciones[keep].preferencia == 1 ==>
      OnlyPreferred(ModificarPreferenciaDireccion(s, keep, s.direcciones[keep].personaId).store.direcciones,
                    s.direcciones[keep].personaId, keep)
  {
    if keep in s.telefonos && s.telefonos[keep].preferencia == 1 {
      ClearOthersSingles(s.telefonos, keep, s.telefonos[keep].personaId);
    }
    if keep in s.mails && s.mails[keep].preferencia == 1 {
      ClearOthersSingles(s.mails, keep, s.mails[keep].personaId);
    }
    if keep in s.direcciones && s.direcciones[keep].preferencia == 1 {
      ClearOthersSingles(s.direcciones, keep, s.direcciones[keep].personaId);
    }
  }
}
