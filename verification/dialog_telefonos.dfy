/** The phone dialog (personal/controller/controller_telefonos.py): it is
    opened on one person and, for an existing phone, on that row; its three
    buttons end in `OnTerminar`, which decides which `DBManager` writes to
    issue. The model returns the store after those writes, the dialog's
    `ret` state and the writes in the order they were issued.
 */
module DialogTelefonos {
  import opened Results
  import opened Text
  import opened Tables
  import opened Schema
  import opened Contacts
  import opened Db
  import opened Preferencias

  datatype Boton = Aceptar | Borrar | Cancelar

  /** The texts of the dialog's widgets. */
  datatype Formulario = Formulario(tlfno: string, preferencia: string, observ: string)

  /** `ret['id_']`, `ret['persona_id']` and `ret['operacion']`, the widgets,
      and whether `accept()` has closed the dialog. */
  datatype Dialogo = Dialogo(id: Option<int>, personaId: int, operacion: Option<bool>, cerrado: bool, form: Formulario)

  /** A `DBManager` call the dialog makes. */
  datatype Escritura =
    | Alta(personaId: int, numero: string, preferencia: int, observ: Option<string>)
    | Modificacion(id: int, numero: string, preferencia: int, observ: Option<string>)
    | Baja(fila: Option<int>)
    | QuitarPreferencia(keep: int, personaId: int)

  datatype Resultado = Resultado(store: Store, dialogo: Dialogo, escrituras: seq<Escritura>)

  /** `__init__`: a new phone keeps the widgets as `inicial` has them; an
      existing one shows its number and notes, and the combo reads `"Si"`
      exactly when the table cell it came from reads `"X"`. */
  function Abrir(id: Option<int>, personaId: int, numero: string, preferencia: string, observ: string,
                 inicial: Formulario): (d: Dialogo)
    ensures d.id == id && d.personaId == personaId && d.operacion.None? && !d.cerrado
    ensures id.None? ==> d.form == inicial
    ensures id.Some? ==> d.form.tlfno == numero && d.form.observ == observ
    ensures id.Some? ==> (d.form.preferencia == "Si" <==> preferencia == "X")
  {
    var form := if id.None? then inicial else Formulario(numero, ComboInicial(preferencia), observ);
    Dialogo(id, personaId, None, false, form)
  }

  /** The create-or-modify call `'a'` issues, and its reply. */
  function Guardar(s: Store, d: Dialogo): (r: (Escritura, Reply<int>))
    requires d.id.Some? ==> d.id.value in s.telefonos
    ensures r.0.Alta? <==> d.id.None?
    ensures r.0.Alta? ==> r.0.personaId == d.personaId
    ensures r.0.Modificacion? ==> r.0.id == d.id.value
    ensures (r.0.Alta? || r.0.Modificacion?) && r.0.numero == Strip(d.form.tlfno)
    ensures r.0.preferencia == 1 <==> d.form.preferencia == "Si"
    ensures r.0.preferencia == 0 || r.0.preferencia == 1
    ensures r.0.observ == Some(Strip(d.form.observ))
    ensures r.1.result.Ok?
    ensures r.0.Alta? ==> Added(s.telefonos, r.1.store.telefonos, r.1.result.value,
                                Contact(d.personaId, r.0.numero, r.0.preferencia, r.0.observ))
    ensures r.0.Modificacion? ==>
      && r.1.result.value == r.0.id
      && r.1.store.telefonos == s.telefonos[r.0.id := Contact(s.telefonos[r.0.id].personaId, r.0.numero, r.0.preferencia, r.0.observ)]
    ensures r.1.store == s.(telefonos := r.1.store.telefonos)
  {
    var numero, preferencia, observ := Strip(d.form.tlfno), FromCombo(d.form.preferencia), Some(Strip(d.form.observ));
    if d.id.None? then
      (Alta(d.personaId, numero, preferencia, observ), AltaTelefono(s, d.personaId, numero, preferencia, observ))
    else
      (Modificacion(d.id.value, numero, preferencia, observ), ModificarTelefono(s, d.id.value, numero, preferencia, observ))
  }

  /** `OnTerminar`. `confirma` is the answer to "¿Seguro que quieres borrarlo?". */
  function OnTerminar(s: Store, d: Dialogo, boton: Boton, confirma: bool): (r: Resultado)
    requires boton == Aceptar && d.id.Some? ==> d.id.value in s.telefonos
    // Only the phone table is ever written, and the dialog keeps its row and person.
    ensures r.store == s.(telefonos := r.store.telefonos)
    ensures r.dialogo.id == d.id && r.dialogo.personaId == d.personaId && r.dialogo.form == d.form
    // Cancel: no call, `operacion` False, the dialog closes.
    ensures boton == Cancelar ==>
      r.store == s && r.escrituras == [] && r.dialogo.operacion == Some(false) && r.dialogo.cerrado
    // A declined delete: nothing happens and the dialog stays open.
    ensures boton == Borrar && !confirma ==> r.store == s && r.escrituras == [] && r.dialogo == d
    // A confirmed delete: one `baja_telefono`, never a preference clear.
    ensures boton == Borrar && confirma ==>
      && r.escrituras == [Baja(d.id)]
      && (r.dialogo.operacion == Some(true) <==> d.id.Some? && d.id.value in s.telefonos)
      && (r.dialogo.operacion == Some(true) ==> r.store.telefonos == s.telefonos - {d.id.value})
    // Accept: create when there is no row, modify it otherwise; then clear
    // the person's other preferred phones when the saved one is preferred.
    ensures boton == Aceptar ==>
      && 1 <= |r.escrituras| <= 2
      && (r.escrituras[0].Alta? <==> d.id.None?)
      && (r.escrituras[0].Modificacion? ==> r.escrituras[0].id == d.id.value)
      && (|r.escrituras| == 2 <==> r.dialogo.operacion == Some(true) && d.form.preferencia == "Si")
      && (|r.escrituras| == 2 ==> r.escrituras[1].QuitarPreferencia? && r.escrituras[1].personaId == d.personaId)
    // A failed call issues nothing more, sets `operacion` False and does not
    // close the dialog; the store is as it was.
    ensures (boton == Aceptar || (boton == Borrar && confirma)) && r.dialogo.operacion == Some(false) ==>
      |r.escrituras| == 1 && r.store == s && r.dialogo.cerrado == d.cerrado
    // `accept()` runs after a cancel and after a call that succeeded.
    ensures boton != Borrar || confirma ==>
      && r.dialogo.operacion.Some?
      && (r.dialogo.cerrado <==> d.cerrado || boton == Cancelar || r.dialogo.operacion == Some(true))
    ensures Valid(s) ==> Valid(r.store)
  {
    match boton
    case Cancelar => Resultado(s, d.(operacion := Some(false), cerrado := true), [])
    case Borrar =>
      if !confirma then Resultado(s, d, [])
      else
        var rep := if d.id.Some? then BajaTelefono(s, d.id.value) else Reply(s, Err(NoSuchRow));
        if rep.result.Ok? then Resultado(rep.store, d.(operacion := Some(true), cerrado := true), [Baja(d.id)])
        else Resultado(rep.store, d.(operacion := Some(false)), [Baja(d.id)])
    case Aceptar =>
      var (w, rep) := Guardar(s, d);
      if rep.result.Err? then Resultado(rep.store, d.(operacion := Some(false)), [w])
      else if w.preferencia == 1 then
        var clear := ModificarPreferenciaTlfno(rep.store, rep.result.value, d.personaId);
        Resultado(clear.store, d.(operacion := Some(true), cerrado := true),
                  [w, QuitarPreferencia(rep.result.value, d.personaId)])
      else Resultado(rep.store, d.(operacion := Some(true), cerrado := true), [w])
  }

  /** The dialog was opened on a phone of its own person. */
  ghost predicate Encaja(s: Store, d: Dialogo) {
    d.id.Some? && d.id.value in s.telefonos ==> s.telefonos[d.id.value].personaId == d.personaId
  }

  /** Every way `OnTerminar` can end keeps "at most one preferred phone per person". */
  lemma {:induction false} PreservaPreferidoUnico(s: Store, d: Dialogo, boton: Boton, confirma: bool)
    requires boton == Aceptar && d.id.Some? ==> d.id.value in s.telefonos
    requires Encaja(s, d)
    requires AtMostOnePreferred(s.telefonos)
    ensures AtMostOnePreferred(OnTerminar(s, d, boton, confirma).store.telefonos)
  {
    match boton
    case Cancelar =>
    case Borrar =>
      if confirma && d.id.Some? {
        RemoveKeeps(s.telefonos, d.id.value);
      }
    case Aceptar =>
      var (w, rep) := Guardar(s, d);
      var t := rep.store.telefonos;
      if d.id.None? {
        AddKeeps(s.telefonos, Contact(d.personaId, w.numero, w.preferencia, w.observ));
      } else {
        UpdateKeeps(s.telefonos, d.id.value, w.numero, w.preferencia, w.observ);
      }
      if w.preferencia == 1 {
        assert AtMostOnePreferredBut(t, d.personaId);
        ClearOthersRestores(t, rep.result.value, d.personaId);
      }
  }

  /** Saving a phone marked preferred leaves it as its person's only preferred phone. */
  lemma {:induction false} GuardadoUnicoPreferido(s: Store, d: Dialogo)
    requires d.id.Some? ==> d.id.value in s.telefonos
    requires Encaja(s, d)
    requires d.form.preferencia == "Si"
    ensures var r := OnTerminar(s, d, Aceptar, true);
      && |r.escrituras| == 2
      && (d.id.Some? ==> r.escrituras[1].keep == d.id.value)
      && (d.id.None? ==> r.escrituras[1].keep !in s.telefonos)
      && OnlyPreferred(r.store.telefonos, d.personaId, r.escrituras[1].keep)
  {
    var (w, rep) := Guardar(s, d);
    ClearOthersSingles(rep.store.telefonos, rep.result.value, d.personaId);
  }
}
