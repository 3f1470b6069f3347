/** The address dialog (personal/controller/controller_direcciones.py). It
    works as the phone dialog does, with one step more: the postal code
    typed in it is resolved against `codigo_postal` while editing (`OnCP`),
    and on accept it is created or overwritten (`__gestionar_cp`) before the
    address itself is written.
 */
module DialogDirecciones {
  import opened Results
  import opened Text
  import opened Tables
  import opened Schema
  import opened Contacts
  import opened Db
  import opened Preferencias

  datatype Boton = Aceptar | Borrar | Cancelar

  /** The texts of the dialog's widgets. */
  datatype Formulario = Formulario(
    direccion: string, cp: string, localidad: string, provincia: string, preferencia: string, observ: string)

  /** `ret['id_']`, `ret['persona_id']`, `ret['cp_id']` and `ret['operacion']`,
      the widgets, and whether `accept()` has closed the dialog. */
  datatype Dialogo = Dialogo(
    id: Option<int>, personaId: int, cpId: Option<int>, operacion: Option<bool>, cerrado: bool, form: Formulario)

  /** A `DBManager` call the dialog makes. */
  datatype Escritura =
    | AltaCp(cp: string, localidad: string, provincia: string)
    | ModificacionCp(cpId: int, cp: string, localidad: string, provincia: string)
    | Alta(personaId: int, direccion: string, cpRow: int, preferencia: int, observ: Option<string>)
    | Modificacion(id: int, direccion: string, cpRow: int, preferencia: int, observ: Option<string>)
    | Baja(fila: Option<int>)
    | QuitarPreferencia(keep: int, personaId: int)

  datatype Resultado = Resultado(store: Store, dialogo: Dialogo, escrituras: seq<Escritura>)

  /** `__init__` with `poblar_CP`: an existing address shows its street, the
      code, town and province of its postal code row, and `"Si"` in the combo
      exactly when its table cell reads `"X"`. The row must exist: a missing
      one makes `poblar_CP` dereference `None`. */
  function Abrir(s: Store, id: Option<int>, personaId: int, direccion: string, cpId: Option<int>,
                 preferencia: string, observ: string, inicial: Formulario): (d: Dialogo)
    requires id.Some? ==> cpId.Some? && cpId.value in s.codigos
    ensures d.id == id && d.personaId == personaId && d.cpId == cpId && d.operacion.None? && !d.cerrado
    ensures id.None? ==> d.form == inicial
    ensures id.Some? ==>
      && d.form.direccion == direccion && d.form.observ == observ
      && d.form.cp == s.codigos[cpId.value].cp
      && d.form.localidad == s.codigos[cpId.value].localidad
      && d.form.provincia == s.codigos[cpId.value].provincia
      && (d.form.preferencia == "Si" <==> preferencia == "X")
  {
    var form :=
      if id.None? then inicial
      else
        var c := ObtenerCodigoPostalPorId(s, cpId.value).value.value;
        Formulario(direccion, c.cp, c.localidad, c.provincia, ComboInicial(preferencia), observ);
    Dialogo(id, personaId, cpId, None, false, form)
  }

  /** `OnCambiarCP`: the code box now reads `text`; emptying it clears town and province. */
  function OnCambiarCP(d: Dialogo, text: string): (r: Dialogo)
    ensures r.form.cp == text
    ensures text == [] ==> r.form.localidad == [] && r.form.provincia == []
    ensures text != [] ==> r == d.(form := d.form.(cp := text))
    ensures r == d.(form := r.form)
    ensures r.form.direccion == d.form.direccion && r.form.preferencia == d.form.preferencia && r.form.observ == d.form.observ
  {
    var form := d.form.(cp := text);
    d.(form := if text == [] then form.(localidad := [], provincia := []) else form)
  }

  /** `OnCP`: the stripped code is looked up exactly. A stored code fills in
      town and province and becomes `cp_id`; an unknown one empties both and
      clears `cp_id`, so that accepting creates it. */
  function OnCP(s: Store, d: Dialogo): (r: Dialogo)
    ensures r.cpId.Some? <==> CpTaken(s.codigos, Strip(d.form.cp), None)
    ensures r.cpId.Some? ==>
      && r.cpId.value in s.codigos
      && s.codigos[r.cpId.value] == CodigoPostal(r.form.cp, r.form.localidad, r.form.provincia)
      && r.form.cp == Strip(d.form.cp)
    ensures r.cpId.None? ==> r.form.localidad == [] && r.form.provincia == [] && r.form.cp == d.form.cp
    ensures r == d.(cpId := r.cpId, form := r.form)
    ensures r.form.direccion == d.form.direccion && r.form.preferencia == d.form.preferencia && r.form.observ == d.form.observ
  {
    match ObtenerCodigoPostalPorCp(s, Strip(d.form.cp)).value
    case Some((id, c)) =>
      d.(cpId := Some(id), form := d.form.(cp := c.cp, provincia := c.provincia, localidad := c.localidad))
    case None =>
      d.(cpId := None, form := d.form.(provincia := [], localidad := []))
  }

  /** `__gestionar_cp`: create the typed code when `cp_id` is None, else
      overwrite row `cp_id` with it; on success `cp_id` becomes the row
      written. The second component says whether it succeeded. */
  function GestionarCp(s: Store, d: Dialogo): (r: (Resultado, bool))
    requires d.cpId.Some? ==> d.cpId.value in s.codigos
    ensures var (cp, loc, prov) := (Strip(d.form.cp), Strip(d.form.localidad), Strip(d.form.provincia));
      && r.0.escrituras == [if d.cpId.None? then AltaCp(cp, loc, prov) else ModificacionCp(d.cpId.value, cp, loc, prov)]
      && (r.1 <==> |cp| == 5 && !CpTaken(s.codigos, cp, d.cpId))
      && (r.1 ==> r.0.dialogo == d.(cpId := r.0.dialogo.cpId) && r.0.dialogo.cpId.Some?
                  && r.0.store.codigos == s.codigos[r.0.dialogo.cpId.value := CodigoPostal(cp, loc, prov)])
      && (r.1 && d.cpId.Some? ==> r.0.dialogo.cpId == d.cpId)
      && (r.1 && d.cpId.None? ==> r.0.dialogo.cpId.value !in s.codigos)
      && (!r.1 ==> r.0.store == s && r.0.dialogo == d)
    ensures r.0.store == s.(codigos := r.0.store.codigos)
    ensures Valid(s) ==> Valid(r.0.store)
  {
    var (cp, loc, prov) := (Strip(d.form.cp), Strip(d.form.localidad), Strip(d.form.provincia));
    var (w, rep) :=
      if d.cpId.None? then (AltaCp(cp, loc, prov), AltaCodigoPostal(s, cp, loc, prov))
      else (ModificacionCp(d.cpId.value, cp, loc, prov), ModificarCodigoPostal(s, d.cpId.value, cp, loc, prov));
    if rep.result.Ok? then (Resultado(rep.store, d.(cpId := Some(rep.result.value)), [w]), true)
    else (Resultado(s, d, [w]), false)
  }

  /** The address write `'a'` issues once the code is settled, and its reply. */
  function Guardar(s: Store, d: Dialogo): (r: (Escritura, Reply<int>))
    requires d.cpId.Some?
    requires d.id.Some? ==> d.id.value in s.direcciones
    ensures r.0.Alta? <==> d.id.None?
    ensures r.0.Alta? ==> r.0.personaId == d.personaId
    ensures r.0.Modificacion? ==> r.0.id == d.id.value
    ensures (r.0.Alta? || r.0.Modificacion?) && r.0.direccion == Strip(d.form.direccion) && r.0.cpRow == d.cpId.value
    ensures r.0.preferencia == 1 <==> d.form.preferencia == "Si"
    ensures r.0.observ == Some(Strip(d.form.observ))
    ensures r.1.result.Ok?
    ensures r.0.Alta? ==> Added(s.direcciones, r.1.store.direcciones, r.1.result.value,
                                Contact(d.personaId, Postal(r.0.direccion, r.0.cpRow), r.0.preferencia, r.0.observ))
    ensures r.0.Modificacion? ==>
      && r.1.result.value == r.0.id
      && r.1.store.direcciones == s.direcciones[r.0.id := Contact(s.direcciones[r.0.id].personaId,
                                                                  Postal(r.0.direccion, r.0.cpRow), r.0.preferencia, r.0.observ)]
    ensures r.1.store == s.(direcciones := r.1.store.direcciones)
  {
    var direccion, preferencia, observ := Strip(d.form.direccion), FromCombo(d.form.preferencia), Some(Strip(d.form.observ));
    if d.id.None? then
      (Alta(d.personaId, direccion, d.cpId.value, preferencia, observ),
       AltaDireccion(s, d.personaId, direccion, d.cpId.value, preferencia, observ))
    else
      (Modificacion(d.id.value, direccion, d.cpId.value, preferencia, observ),
       ModificarDireccion(s, d.id.value, direccion, d.cpId.value, preferencia, observ))
  }

  /** What `'a'` does: settle the postal code, then write the address, then
      clear the person's other preferred addresses when this one is preferred. */
  function Aceptado(s: Store, d: Dialogo): (r: Resultado)
    requires d.id.Some? ==> d.id.value in s.direcciones
    requires d.cpId.Some? ==> d.cpId.value in s.codigos
    ensures r.store == s.(direcciones := r.store.direcciones, codigos := r.store.codigos)
    ensures r.dialogo.id == d.id && r.dialogo.personaId == d.personaId && r.dialogo.form == d.form
    // The postal code comes first, and whatever it wrote stays written.
    ensures 1 <= |r.escrituras| <= 3
    ensures r.escrituras[0] == GestionarCp(s, d).0.escrituras[0]
    ensures r.store.codigos == GestionarCp(s, d).0.store.codigos
    // A rejected code stops everything: `operacion` untouched, the dialog open.
    ensures !GestionarCp(s, d).1 ==> r.store == s && r.dialogo == d && |r.escrituras| == 1
    // A settled code is followed by the address write, against that code's
    // row, and by a preference clear when the address is preferred.
    ensures GestionarCp(s, d).1 ==>
      && 2 <= |r.escrituras|
      && r.dialogo.cpId == GestionarCp(s, d).0.dialogo.cpId
      && (r.escrituras[1].Alta? <==> d.id.None?)
      && (r.escrituras[1].Modificacion? ==> r.escrituras[1].id == d.id.value)
      && (r.escrituras[1].Alta? || r.escrituras[1].Modificacion?)
      && r.escrituras[1].cpRow == r.dialogo.cpId.value
      && r.dialogo.cpId.value in r.store.codigos
      && r.dialogo.operacion == Some(true) && r.dialogo.cerrado
      && (|r.escrituras| == 3 <==> d.form.preferencia == "Si")
      && (|r.escrituras| == 3 ==> r.escrituras[2].QuitarPreferencia? && r.escrituras[2].personaId == d.personaId)
    ensures Valid(s) ==> Valid(r.store)
  {
    var (g, ok) := GestionarCp(s, d);
    if !ok then g
    else
      var d1, cpWrite := g.dialogo, g.escrituras[0];
      var (w, rep) := Guardar(g.store, d1);
      if rep.result.Err? then Resultado(rep.store, d1.(operacion := Some(false)), [cpWrite, w])
      else if w.preferencia == 1 then
        var clear := ModificarPreferenciaDireccion(rep.store, rep.result.value, d.personaId);
        Resultado(clear.store, d1.(operacion := Some(true), cerrado := true),
                  [cpWrite, w, QuitarPreferencia(rep.result.value, d.personaId)])
      else Resultado(rep.store, d1.(operacion := Some(true), cerrado := true), [cpWrite, w])
  }

  /** `OnTerminar`. `confirma` is the answer to "¿Seguro que quieres borrarla?". */
  function OnTerminar(s: Store, d: Dialogo, boton: Boton, confirma: bool): (r: Resultado)
    requires boton == Aceptar && d.id.Some? ==> d.id.value in s.direcciones
    requires boton == Aceptar && d.cpId.Some? ==> d.cpId.value in s.codigos
    // Only addresses and postal codes are written; the dialog keeps its row, person and widgets.
    ensures r.store == s.(direcciones := r.store.direcciones, codigos := r.store.codigos)
    ensures r.dialogo.id == d.id && r.dialogo.personaId == d.personaId && r.dialogo.form == d.form
    ensures boton != Aceptar ==> r.store.codigos == s.codigos && r.dialogo.cpId == d.cpId
    // Cancel: no call, `operacion` False, the dialog closes.
    ensures boton == Cancelar ==>
      r.store == s && r.escrituras == [] && r.dialogo.operacion == Some(false) && r.dialogo.cerrado
    // A declined delete: nothing happens and the dialog stays open.
    ensures boton == Borrar && !confirma ==> r.store == s && r.escrituras == [] && r.dialogo == d
    // A confirmed delete: one `baja_direccion`, never a preference clear;
    // `accept()` only when it succeeded.
    ensures boton == Borrar && confirma ==>
      && r.escrituras == [Baja(d.id)]
      && (r.dialogo.operacion == Some(true) <==> d.id.Some? && d.id.value in s.direcciones)
      && (r.dialogo.operacion == Some(true) ==> r.store.direcciones == s.direcciones - {d.id.value} && r.dialogo.cerrado)
      && (r.dialogo.operacion == Some(false) ==> r.store == s && r.dialogo.cerrado == d.cerrado)
    ensures boton == Aceptar ==> r == Aceptado(s, d)
    ensures Valid(s) ==> Valid(r.store)
  {
    match boton
    case Cancelar => Resultado(s, d.(operacion := Some(false), cerrado := true), [])
    case Borrar =>
      if !confirma then Resultado(s, d, [])
      else
        var rep := if d.id.Some? then BajaDireccion(s, d.id.value) else Reply(s, Err(NoSuchRow));
        if rep.result.Ok? then Resultado(rep.store, d.(operacion := Some(true), cerrado := true), [Baja(d.id)])
        else Resultado(rep.store, d.(operacion := Some(false)), [Baja(d.id)])
    case Aceptar => Aceptado(s, d)
  }

  /** The dialog was opened on an address of its own person. */
  ghost predicate Encaja(s: Store, d: Dialogo) {
    d.id.Some? && d.id.value in s.direcciones ==> s.direcciones[d.id.value].personaId == d.personaId
  }

  /** Every way `OnTerminar` can end keeps "at most one preferred address per person". */
  lemma {:induction false} PreservaPreferidoUnico(s: Store, d: Dialogo, boton: Boton, confirma: bool)
    requires boton == Aceptar && d.id.Some? ==> d.id.value in s.direcciones
    requires boton == Aceptar && d.cpId.Some? ==> d.cpId.value in s.codigos
    requires Encaja(s, d)
    requires AtMostOnePreferred(s.direcciones)
    ensures AtMostOnePreferred(OnTerminar(s, d, boton, confirma).store.direcciones)
  {
    match boton
    case Cancelar =>
    case Borrar =>
      if confirma && d.id.Some? {
        RemoveKeeps(s.direcciones, d.id.value);
      }
    case Aceptar =>
      var (g, ok) := GestionarCp(s, d);
      if ok {
        var d1 := g.dialogo;
        var (w, rep) := Guardar(g.store, d1);
        var t := rep.store.direcciones;
        assert g.store.direcciones == s.direcciones;
        if d.id.None? {
          AddKeeps(s.direcciones, Contact(d.personaId, Postal(w.direccion, w.cpRow), w.preferencia, w.observ));
        } else {
          UpdateKeeps(s.direcciones, d.id.value, Postal(w.direccion, w.cpRow), w.preferencia, w.observ);
        }
        if w.preferencia == 1 {
          assert AtMostOnePreferredBut(t, d.personaId);
          ClearOthersRestores(t, rep.result.value, d.personaId);
        }
      }
  }

  /** Saving an address marked preferred leaves it as its person's only
      preferred address, provided its postal code was accepted. */
  lemma {:induction false} GuardadaUnicaPreferida(s: Store, d: Dialogo)
    requires d.id.Some? ==> d.id.value in s.direcciones
    requires d.cpId.Some? ==> d.cpId.value in s.codigos
    requires Encaja(s, d)
    requires d.form.preferencia == "Si"
    requires GestionarCp(s, d).1
    ensures var r := OnTerminar(s, d, Aceptar, true);
      && |r.escrituras| == 3
      && (d.id.Some? ==> r.escrituras[2].keep == d.id.value)
      && (d.id.None? ==> r.escrituras[2].keep !in s.direcciones)
      && OnlyPreferred(r.store.direcciones, d.personaId, r.escrituras[2].keep)
  {
    var (g, ok) := GestionarCp(s, d);
    var (w, rep) := Guardar(g.store, g.dialogo);
    ClearOthersSingles(rep.store.direcciones, rep.result.value, d.personaId);
  }

  /** With `cp_id` set, `__gestionar_cp` overwrites that row and never adds one. */
  lemma CodigoExistenteSobrescrito(s: Store, d: Dialogo)
    requires d.cpId.Some? && d.cpId.value in s.codigos
    ensures var (g, ok) := GestionarCp(s, d);
      && g.store.codigos.Keys == s.codigos.Keys
      && g.escrituras[0].ModificacionCp? && g.escrituras[0].cpId == d.cpId.value
      && (ok ==> g.dialogo.cpId == d.cpId)
  {
    var (g, ok) := GestionarCp(s, d);
    if ok {
      assert g.store.codigos.Keys == s.codigos.Keys + {d.cpId.value};
    }
  }

  /** A code `OnCP` found in the store is reused on accept: no postal code
      row is added, and the address points at the row that was found. */
  lemma CodigoConocidoReutilizado(s: Store, d: Dialogo)
    requires d.id.Some? ==> d.id.value in s.direcciones
    requires OnCP(s, d).cpId.Some?
    ensures var d1 := OnCP(s, d);
      var r := OnTerminar(s, d1, Aceptar, true);
      && r.store.codigos.Keys == s.codigos.Keys
      && r.escrituras[0].ModificacionCp? && r.escrituras[0].cpId == d1.cpId.value
      && (|r.escrituras| >= 2 ==> r.escrituras[1].cpRow == d1.cpId.value)
  {
    var d1 := OnCP(s, d);
    CodigoExistenteSobrescrito(s, d1);
  }

  /** A code `OnCP` did not find is created on accept, as a row of its own,
      unless it is not five characters long. */
  lemma CodigoNuevoCreado(s: Store, d: Dialogo)
    requires d.id.Some? ==> d.id.value in s.direcciones
    requires OnCP(s, d).cpId.None?
    ensures var d1 := OnCP(s, d);
      var r := OnTerminar(s, d1, Aceptar, true);
      && r.escrituras[0] == AltaCp(Strip(d.form.cp), [], [])
      && (GestionarCp(s, d1).1 <==> |Strip(d.form.cp)| == 5)
      && (|Strip(d.form.cp)| == 5 ==> r.dialogo.cpId.Some? && r.dialogo.cpId.value !in s.codigos
                                      && r.store.codigos[r.dialogo.cpId.value].cp == Strip(d.form.cp))
  {
  }
}
