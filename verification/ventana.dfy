/** The main window's own logic (personal/controller/controller.py): the
    edit state `en_edicion | alta | relacion`, which widget groups are
    enabled, loading a person into the form, saving the form, the
    relationship-type combo and the name search. Widgets are reduced to the
    texts and flags these decisions read and write.
 */
module Ventana {
  import opened Results
  import opened Text
  import opened Schema
  import opened Db
  import opened Dates

  datatype Estado = EnEdicion | Alta | Relacion

  /** The widget groups `activar_elementos` switches. `Operaciones` stands
      for the create, delete and print buttons, which always go together. */
  datatype Grupo = Personal | Contacto | Otros | Buscar | Operaciones

  const Todos: set<Grupo> := {Personal, Contacto, Otros, Buscar, Operaciones}

  /** The `opcion` argument of `activar_elementos`. */
  datatype Opcion = OpPersonal | OpContacto | OpOtros | OpBuscar | OpAlta | OpRelacion | OpEnEdicion

  /** Which groups each option names, as documented on `activar_elementos`:
      one group each, except `relacion` and `en_edicion`, which name every
      group but the search box. */
  function GruposDe(o: Opcion): set<Grupo> {
    match o
    case OpPersonal => {Personal}
    case OpContacto => {Contacto}
    case OpOtros => {Otros}
    case OpBuscar => {Buscar}
    case OpAlta => {Operaciones}
    case OpRelacion => {Personal, Contacto, Otros, Operaciones}
    case OpEnEdicion => {Personal, Contacto, Otros, Operaciones}
  }

  function Poner(activos: set<Grupo>, g: Grupo, estado: bool): set<Grupo> {
    if estado then activos + {g} else activos - {g}
  }

  /** `activar_elementos(opcion, estado)`, one `if` of the source per group. */
  function ActivarElementos(activos: set<Grupo>, o: Opcion, estado: bool): (r: set<Grupo>)
    ensures forall g :: g in r <==> (if g in GruposDe(o) then estado else g in activos)
  {
    var a := if o in {OpPersonal, OpRelacion, OpEnEdicion} then Poner(activos, Personal, estado) else activos;
    var b := if o in {OpContacto, OpRelacion, OpEnEdicion} then Poner(a, Contacto, estado) else a;
    var c := if o in {OpOtros, OpRelacion, OpEnEdicion} then Poner(b, Otros, estado) else b;
    var d := if o == OpBuscar then Poner(c, Buscar, estado) else c;
    if o in {OpAlta, OpRelacion, OpEnEdicion} then Poner(d, Operaciones, estado) else d
  }

  /** The texts of the personal-data widgets: the date box shows `dd/mm/YYYY`. */
  datatype Ficha = Ficha(dni: string, nombre: string, ap1: string, ap2: string, fnac: string, sexo: string, observ: string)

  /** The window: its edit state, the enabled groups, the hidden record-id
      box (`nrp`), the form, the hidden related-person and relationship-type
      id boxes, the related person's name box, and the relationship-type
      combo (`tipos` holds the item data in combo order, `tipoIndex` the
      current index, -1 for none). */
  datatype Ventana = Ventana(
    estado: Estado,
    activos: set<Grupo>,
    nrp: Option<int>,
    ficha: Ficha,
    relacionadoCon: Option<int>,
    relPer: string,
    tipoRelacionId: Option<int>,
    tipos: seq<int>,
    tipoIndex: int)

  /** What `OnGuardarPersona` and `OnBorrarPersona` report. */
  datatype Aviso =
    | NadaQueGuardar
    | FechaIncorrecta
    | Guardada(id: int)
    | NadaQueEliminar
    | NoConfirmada
    | Eliminada
    | Fallo(error: DbError)

  datatype Paso = Paso(store: Store, ventana: Ventana, aviso: Aviso)

  /** `str()` of a nullable column. */
  function Show(o: Option<string>): string {
    if o.Some? then o.value else "None"
  }

  /** The name cell of the person table: `f"{nombre} {ap1} {ap2}".strip()`. */
  function NombreFila(p: Persona): string {
    Strip(Show(p.nombre) + " " + Show(p.ap1) + " " + Show(p.ap2))
  }

  /** The constructor's last step: the state starts as `en_edicion` and the
      personal, contact and other data are disabled, leaving the search box
      and the operation buttons. */
  function Arranque(w: Ventana): (r: Ventana)
    ensures r.estado == EnEdicion
    ensures r.activos == w.activos * {Buscar, Operaciones}
    ensures r == w.(estado := EnEdicion, activos := r.activos)
  {
    var a1 := ActivarElementos(w.activos, OpContacto, false);
    var a2 := ActivarElementos(a1, OpOtros, false);
    var a := ActivarElementos(a2, OpPersonal, false);
    forall g: Grupo ensures g in a <==> g in w.activos * {Buscar, Operaciones} {
      assert g in a <==> g != Personal && g in a2;
      assert g in a2 <==> g != Otros && g in a1;
    }
    w.(estado := EnEdicion, activos := a)
  }

  // ---------------------------------------------------------------------
  // The relationship-type combo
  // ---------------------------------------------------------------------

  /** The first index of `x` in `xs`, or -1: the `for … break` of `posicionar_tipo_relacion`. */
  function IndexOf(xs: seq<int>, x: int): (i: int)
    ensures -1 <= i < |xs|
    ensures i >= 0 ==> xs[i] == x && forall j :: 0 <= j < i ==> xs[j] != x
    ensures i == -1 <==> x !in xs
  {
    if |xs| == 0 then -1
    else if xs[0] == x then 0
    else
      var k := IndexOf(xs[1..], x);
      assert xs == [xs[0]] + xs[1..];
      if k == -1 then -1 else k + 1
  }

  /** `posicionar_tipo_relacion`: select the combo item carrying the stored
      type; with no stored type select nothing; a stored type no item
      carries is cleared, and the combo is left where it was. */
  function PosicionarTipoRelacion(w: Ventana): (r: Ventana)
    ensures w.tipoRelacionId.None? ==> r == w.(tipoIndex := -1)
    ensures w.tipoRelacionId.Some? && w.tipoRelacionId.value in w.tipos ==>
      && r == w.(tipoIndex := r.tipoIndex)
      && 0 <= r.tipoIndex < |w.tipos| && w.tipos[r.tipoIndex] == w.tipoRelacionId.value
      && forall j :: 0 <= j < r.tipoIndex ==> w.tipos[j] != w.tipoRelacionId.value
    ensures w.tipoRelacionId.Some? && w.tipoRelacionId.value !in w.tipos ==> r == w.(tipoRelacionId := None)
  {
    match w.tipoRelacionId
    case None => w.(tipoIndex := -1)
    case Some(t) =>
      var i := IndexOf(w.tipos, t);
      if i != -1 then w.(tipoIndex := i) else w.(tipoRelacionId := None)
  }

  /** The combo data `poblar_tipo_relaciones` leaves: each type of the
      query is inserted at the top, so the combo lists them in reverse. */
  function PoblarTipoRelaciones(ids: seq<int>): (combo: seq<int>)
    ensures |combo| == |ids|
    ensures forall i :: 0 <= i < |ids| ==> combo[i] == ids[|ids| - 1 - i]
  {
    if |ids| == 0 then []
    else [ids[|ids| - 1]] + PoblarTipoRelaciones(ids[..|ids| - 1])
  }

  /** Every type the combo was filled with is found again when positioning. */
  lemma {:induction false} PoblarPosiciona(ids: seq<int>, t: int)
    requires t in ids
    ensures IndexOf(PoblarTipoRelaciones(ids), t) >= 0
  {
    var combo := PoblarTipoRelaciones(ids);
    var k :| 0 <= k < |ids| && ids[k] == t;
    assert combo[|ids| - 1 - k] == t;
  }

  /** The type `OnGuardarPersona` reads: the current item's data, None when
      no item is current. */
  function TipoSeleccionado(w: Ventana): (t: Option<int>)
    ensures t.Some? <==> 0 <= w.tipoIndex < |w.tipos|
    ensures t.Some? ==> t.value in w.tipos
  {
    if 0 <= w.tipoIndex < |w.tipos| then Some(w.tipos[w.tipoIndex]) else None
  }

  /** A type the combo carries survives positioning and is what saving reads back. */
  lemma PosicionarConserva(w: Ventana)
    requires w.tipoRelacionId.Some? && w.tipoRelacionId.value in w.tipos
    ensures TipoSeleccionado(PosicionarTipoRelacion(w)) == w.tipoRelacionId
  {
  }

  // ---------------------------------------------------------------------
  // Clearing and loading the form
  // ---------------------------------------------------------------------

  /** `limpiar_datos` of "personal", "contacto" and "otros": every text box,
      the record id, the relation boxes and the combo are emptied. The sex
      combo is not among them. */
  function Limpiar(w: Ventana): (r: Ventana)
    ensures r.ficha == Ficha("", "", "", "", "", w.ficha.sexo, "")
    ensures r.nrp.None? && r.relacionadoCon.None? && r.tipoRelacionId.None? && r.relPer == "" && r.tipoIndex == -1
    ensures r.estado == w.estado && r.activos == w.activos && r.tipos == w.tipos
  {
    w.(ficha := Ficha("", "", "", "", "", w.ficha.sexo, ""), nrp := None,
       relacionadoCon := None, relPer := "", tipoRelacionId := None, tipoIndex := -1)
  }

  /** A person `cargar_datos_personales` and `persona_relacionada` can show
      without raising: the row exists and satisfies its constraints, its
      birth date slices into a date, and the person it is related to exists. */
  ghost predicate Cargable(s: Store, id: int) {
    && id in s.personas
    && PersonaOk(s.personas[id])
    && IsoShaped(s.personas[id].fnac.value)
    && ValidDate(SliceDate(s.personas[id].fnac.value))
    && (s.personas[id].relacionadoCon.Some? ==> s.personas[id].relacionadoCon.value in s.personas)
  }

  /** `cargar_persona`: the form shows the row, the date box shows the
      sliced birth date, the combo is positioned on the row's type and the
      related person's name is shown; personal, contact and other data are
      enabled. */
  function CargarPersona(s: Store, w: Ventana, id: int): (r: Ventana)
    requires Cargable(s, id)
    ensures var p := s.personas[id];
      && r.nrp == Some(id)
      && r.ficha.dni == p.nif.value && r.ficha.nombre == Show(p.nombre) && r.ficha.ap1 == Show(p.ap1)
      && r.ficha.ap2 == Show(p.ap2) && r.ficha.sexo == p.sexo.value
      && r.ficha.observ == (if p.observ.Some? then p.observ.value else "")
      && r.ficha.fnac == FormatDisplay(SliceDate(p.fnac.value))
      && r.relacionadoCon == p.relacionadoCon
      && (p.relacionadoCon.None? ==> r.relPer == "")
      && (p.relacionadoCon.Some? ==>
            var q := s.personas[p.relacionadoCon.value];
            r.relPer == Show(q.nombre) + " " + Show(q.ap1) + " " + Show(q.ap2))
      && (p.tipoRelacionId.None? || p.tipoRelacionId.value in w.tipos ==> r.tipoRelacionId == p.tipoRelacionId)
      && (p.tipoRelacionId.Some? && p.tipoRelacionId.value !in w.tipos ==> r.tipoRelacionId.None?)
    ensures r.activos == w.activos + {Personal, Contacto, Otros}
    ensures r.estado == w.estado && r.tipos == w.tipos
  {
    var p := s.personas[id];
    var ficha := Ficha(p.nif.value, Show(p.nombre), Show(p.ap1), Show(p.ap2),
                       FormatDisplay(SliceDate(p.fnac.value)), p.sexo.value,
                       if p.observ.Some? then p.observ.value else "");
    var activos := ActivarElementos(ActivarElementos(ActivarElementos(w.activos, OpPersonal, true), OpContacto, true), OpOtros, true);
    var w1 := w.(activos := activos, nrp := Some(id), ficha := ficha,
                 relacionadoCon := p.relacionadoCon, tipoRelacionId := p.tipoRelacionId);
    var w2 := PosicionarTipoRelacion(w1);
    var relPer :=
      if p.relacionadoCon.None? then ""
      else
        var q := s.personas[p.relacionadoCon.value];
        Show(q.nombre) + " " + Show(q.ap1) + " " + Show(q.ap2);
    w2.(relPer := relPer)
  }

  // ---------------------------------------------------------------------
  // State transitions
  // ---------------------------------------------------------------------

  /** `Todos` lists every group. */
  lemma TodosCompleto(a: set<Grupo>)
    ensures a <= Todos
  {
    forall g | g in a ensures g in Todos {
      match g
      case Personal =>
      case Contacto =>
      case Otros =>
      case Buscar =>
      case Operaciones =>
    }
  }

  /** `OnAltaPersona`: state `alta`, an empty form, and only the personal
      data enabled. */
  function OnAltaPersona(w: Ventana): (r: Ventana)
    ensures r.estado == Alta
    ensures r.activos == {Personal}
    ensures r == Limpiar(w).(estado := Alta, activos := r.activos)
  {
    var w1 := Limpiar(w.(estado := Alta));
    TodosCompleto(w.activos);
    var a := ActivarElementos(w1.activos, OpPersonal, true);
    var b := ActivarElementos(ActivarElementos(a, OpContacto, false), OpOtros, false);
    var c := ActivarElementos(ActivarElementos(b, OpBuscar, false), OpAlta, false);
    w1.(activos := c)
  }

  /** `OnCrearRelacion`: state `relacion`, with only the search box left enabled. */
  function OnCrearRelacion(w: Ventana): (r: Ventana)
    ensures r.estado == Relacion
    ensures r.activos == w.activos * {Buscar}
    ensures r == w.(estado := Relacion, activos := r.activos)
  {
    var a := ActivarElementos(w.activos, OpRelacion, false);
    assert forall g: Grupo :: g in a <==> g in w.activos * {Buscar} by {
      forall g: Grupo ensures g == Buscar || g in GruposDe(OpRelacion) {
      }
    }
    w.(activos := a, estado := Relacion)
  }

  /** `OnClickPersona`; `fila` is the selected row's id and name cells, None
      when no row is current. In state `relacion` the click picks the
      related person and nothing else changes; otherwise it loads the person
      and the state becomes `en_edicion`. */
  function OnClickPersona(s: Store, w: Ventana, fila: Option<(int, string)>): (r: Ventana)
    requires fila.Some? && w.estado != Relacion ==> Cargable(s, fila.value.0)
    ensures fila.None? ==> r == w
    ensures fila.Some? && w.estado == Relacion ==>
      r == w.(relacionadoCon := Some(fila.value.0), relPer := fila.value.1)
    ensures fila.Some? && w.estado != Relacion ==>
      r.estado == EnEdicion && r.nrp == Some(fila.value.0) && r.activos == w.activos + {Personal, Contacto, Otros}
  {
    match fila
    case None => w
    case Some((id, nombre)) =>
      if w.estado == Relacion then w.(relacionadoCon := Some(id), relPer := nombre)
      else CargarPersona(s, w, id).(estado := EnEdicion)
  }

  /** `OnCancelarPersona`: the form is cleared; in `en_edicion` or
      `relacion` the current person is loaded again and the state becomes
      `en_edicion`; in `alta` the state stays `alta` with only search and
      the operation buttons enabled. */
  function OnCancelarPersona(s: Store, w: Ventana): (r: Ventana)
    requires w.estado != Alta && w.nrp.Some? ==> Cargable(s, w.nrp.value)
    ensures w.estado == Alta ==> r == Limpiar(w).(activos := (w.activos + {Buscar, Operaciones}) - {Personal, Contacto, Otros})
    ensures w.estado != Alta ==> r.estado == EnEdicion
    ensures w.estado != Alta && w.nrp.None? ==> r == Limpiar(w).(estado := EnEdicion)
    ensures w.estado != Alta && w.nrp.Some? ==>
      r.nrp == w.nrp && r.activos == w.activos + {Personal, Contacto, Otros, Operaciones}
  {
    var w1 := Limpiar(w);
    if w.estado == Alta then
      var a := ActivarElementos(ActivarElementos(w1.activos, OpBuscar, true), OpAlta, true);
      var b := ActivarElementos(ActivarElementos(ActivarElementos(a, OpContacto, false), OpOtros, false), OpPersonal, false);
      w1.(activos := b)
    else
      match w.nrp
      case None => w1.(estado := EnEdicion)
      case Some(id) =>
        var w2 := CargarPersona(s, w1, id).(estado := EnEdicion);
        w2.(activos := ActivarElementos(w2.activos, OpEnEdicion, true))
  }

  /** `OnBorrarPersona`; `confirma` answers "¿Eliminar la persona actual?".
      After a delete the form is cleared, editing is disabled and the
      operation buttons enabled; the state is left as it was. */
  function OnBorrarPersona(s: Store, w: Ventana, confirma: bool): (r: Paso)
    ensures w.nrp.None? ==> r == Paso(s, w, NadaQueEliminar)
    ensures w.nrp.Some? && !confirma ==> r == Paso(s, w, NoConfirmada)
    ensures w.nrp.Some? && confirma ==>
      && (r.aviso == Eliminada <==> w.nrp.value in s.personas)
      && (r.aviso == Eliminada ==>
            && r.store == BajaPersona(s, w.nrp.value).store
            && r.ventana == Limpiar(w).(activos := (w.activos - {Personal, Contacto, Otros}) + {Operaciones}))
      && (r.aviso != Eliminada ==> r == Paso(s, w, Fallo(NoSuchRow)))
    ensures Valid(s) ==> Valid(r.store)
  {
    match w.nrp
    case None => Paso(s, w, NadaQueEliminar)
    case Some(id) =>
      if !confirma then Paso(s, w, NoConfirmada)
      else
        var rep := BajaPersona(s, id);
        if rep.result.Err? then Paso(s, w, Fallo(rep.result.error))
        else
          var w1 := Limpiar(w);
          var a := ActivarElementos(ActivarElementos(w1.activos, OpEnEdicion, false), OpAlta, true);
          Paso(rep.store, w1.(activos := a), Eliminada)
  }

  // ---------------------------------------------------------------------
  // Saving
  // ---------------------------------------------------------------------

  /** The five `activar_elementos(…, True)` calls after a successful save. */
  function ActivarTodo(activos: set<Grupo>): (r: set<Grupo>)
    ensures r == activos + Todos
  {
    var a := ActivarElementos(activos, OpPersonal, true);
    var b := ActivarElementos(ActivarElementos(a, OpContacto, true), OpOtros, true);
    var c := ActivarElementos(ActivarElementos(b, OpBuscar, true), OpAlta, true);
    assert forall g: Grupo :: g in c <==> g in activos + Todos;
    c
  }

  /** The form's personal data as `alta_persona` receives it: stripped texts
      and the converted date. */
  ghost predicate DatosDeFicha(p: Persona, f: Ficha, fecha: string) {
    && p.nif == Some(Strip(f.dni)) && p.nombre == Some(Strip(f.nombre))
    && p.ap1 == Some(Strip(f.ap1)) && p.ap2 == Some(Strip(f.ap2))
    && p.fnac == Some(fecha) && p.sexo == Some(f.sexo)
  }

  /** The `alta` branch of `OnGuardarPersona`: a new person from the form and the chosen photo file. */
  function EscribirAlta(s: Store, w: Ventana, fecha: string, fotoFichero: Option<Bytes>): (r: Paso)
    ensures r.aviso.Guardada? || r.aviso.Fallo?
    ensures r.aviso.Fallo? ==> r.store == s && r.ventana == w.(estado := Alta)
    ensures r.aviso.Guardada? ==>
      && r.ventana == w.(nrp := Some(r.aviso.id), estado := EnEdicion, activos := w.activos + Todos)
      && r.aviso.id !in s.personas && r.aviso.id in r.store.personas
      && DatosDeFicha(r.store.personas[r.aviso.id], w.ficha, fecha)
      && var p := r.store.personas[r.aviso.id];
      && p.relacionadoCon.None? && p.tipoRelacionId.None? && p.observ.None? && p.foto == fotoFichero
    ensures r.store == s.(personas := r.store.personas)
    ensures s.personas.Keys <= r.store.personas.Keys
    ensures Valid(s) ==> Valid(r.store)
  {
    var f := w.ficha;
    var rep := AltaPersona(s, Some(Strip(f.dni)), Some(Strip(f.nombre)), Some(Strip(f.ap1)), Some(Strip(f.ap2)),
                           Some(fecha), fotoFichero, Some(f.sexo));
    match rep.result
    case Err(e) => Paso(s, w.(estado := Alta), Fallo(e))
    case Ok(id) => Paso(rep.store, w.(nrp := Some(id), estado := EnEdicion, activos := ActivarTodo(w.activos)), Guardada(id))
  }

  /** The `en_edicion` branch of `OnGuardarPersona`: the current person
      overwritten with the form, the photo label, the observations, the
      combo's type and the related person. */
  function EscribirModificacion(s: Store, w: Ventana, id: int, fecha: string, fotoEtiqueta: Bytes): (r: Paso)
    requires id in s.personas
    ensures r.aviso.Guardada? || r.aviso.Fallo?
    ensures r.aviso.Fallo? ==> r.store == s && r.ventana == w.(estado := EnEdicion)
    ensures r.aviso.Guardada? ==>
      && r.ventana == w.(nrp := Some(id), estado := EnEdicion, activos := w.activos + Todos)
      && r.aviso.id == id && r.store.personas.Keys == s.personas.Keys
      && DatosDeFicha(r.store.personas[id], w.ficha, fecha)
      && var p := r.store.personas[id];
      && p.observ == Some(Strip(w.ficha.observ)) && p.foto == Some(fotoEtiqueta)
      && p.tipoRelacionId == TipoSeleccionado(w) && p.relacionadoCon == w.relacionadoCon
    ensures r.store == s.(personas := r.store.personas)
    ensures Valid(s) ==> Valid(r.store)
  {
    var f := w.ficha;
    var rep := ModificarPersona(s, id, Some(Strip(f.dni)), Some(Strip(f.nombre)), Some(Strip(f.ap1)),
                                Some(Strip(f.ap2)), Some(fecha), Some(fotoEtiqueta), Some(f.sexo),
                                Some(Strip(f.observ)), TipoSeleccionado(w), w.relacionadoCon);
    match rep.result
    case Err(e) => Paso(s, w.(estado := EnEdicion), Fallo(e))
    case Ok(_) => Paso(rep.store, w.(nrp := Some(id), estado := EnEdicion, activos := ActivarTodo(w.activos)), Guardada(id))
  }

  /** `OnGuardarPersona`. `fotoFichero` is what reading the chosen photo file
      gave (None when it could not be read); `fotoEtiqueta` is the PNG the
      photo label encodes to. */
  function OnGuardarPersona(s: Store, w: Ventana, fotoFichero: Option<Bytes>, fotoEtiqueta: Bytes): (r: Paso)
    requires w.estado != Alta && w.nrp.Some? ==> w.nrp.value in s.personas
    // With no record id outside `alta` there is nothing to save.
    ensures r.aviso == NadaQueGuardar <==> w.nrp.None? && w.estado != Alta
    ensures r.aviso == NadaQueGuardar ==> r.store == s && r.ventana == w
    // Past that guard `relacion` has become `en_edicion`, whatever follows.
    ensures r.aviso != NadaQueGuardar ==> r.ventana.estado != Relacion
    // A typed date that is not a date writes nothing.
    ensures r.aviso == FechaIncorrecta <==> r.aviso != NadaQueGuardar && ConvertBirthDate(w.ficha.fnac).None?
    ensures r.aviso == FechaIncorrecta ==>
      r.store == s && r.ventana == w.(estado := if w.estado == Relacion then EnEdicion else w.estado)
    // Otherwise the store call decides: a new person in `alta`, the current one otherwise.
    ensures r.aviso != NadaQueGuardar && r.aviso != FechaIncorrecta && w.estado == Alta ==>
      r == EscribirAlta(s, w, ConvertBirthDate(w.ficha.fnac).value, fotoFichero)
    ensures r.aviso != NadaQueGuardar && r.aviso != FechaIncorrecta && w.estado != Alta ==>
      r == EscribirModificacion(s, w, w.nrp.value, ConvertBirthDate(w.ficha.fnac).value, fotoEtiqueta)
  {
    if w.nrp.None? && w.estado != Alta then Paso(s, w, NadaQueGuardar)
    else
      var w1 := if w.estado == Relacion then w.(estado := EnEdicion) else w;
      match ConvertBirthDate(w.ficha.fnac)
      case None => Paso(s, w1, FechaIncorrecta)
      case Some(fecha) =>
        if w.estado == Alta then EscribirAlta(s, w, fecha, fotoFichero)
        else EscribirModificacion(s, w, w.nrp.value, fecha, fotoEtiqueta)
  }

  /** A person the window saved can be loaded back, provided the person it
      is related to exists. */
  lemma {:induction false} GuardadaCargable(s: Store, w: Ventana, fotoFichero: Option<Bytes>, fotoEtiqueta: Bytes)
    requires w.estado != Alta && w.nrp.Some? ==> w.nrp.value in s.personas
    requires w.estado != Alta && w.relacionadoCon.Some? ==> w.relacionadoCon.value in s.personas
    ensures var r := OnGuardarPersona(s, w, fotoFichero, fotoEtiqueta);
      r.aviso.Guardada? ==> Cargable(r.store, r.aviso.id)
  {
    var r := OnGuardarPersona(s, w, fotoFichero, fotoEtiqueta);
    if r.aviso.Guardada? {
      var d := ParseDisplay(w.ficha.fnac).value;
      SliceFormatIso(d);
    }
  }

  /** Loading a person whose birth date the window wrote and saving it
      untouched writes the same birth date and keeps the person's type when
      the combo carries it. */
  lemma {:induction false} CargarGuardarConserva(s: Store, w: Ventana, id: int, d: Date, fotoEtiqueta: Bytes)
    requires Cargable(s, id)
    requires ValidDate(d) && s.personas[id].fnac == Some(FormatIso(d))
    requires w.estado != Relacion
    requires s.personas[id].tipoRelacionId.Some? ==> s.personas[id].tipoRelacionId.value in w.tipos
    ensures var w1 := OnClickPersona(s, w, Some((id, NombreFila(s.personas[id]))));
      var r := OnGuardarPersona(s, w1, None, fotoEtiqueta);
      && r.aviso != NadaQueGuardar && r.aviso != FechaIncorrecta
      && (r.aviso.Guardada? ==>
            && r.aviso.id == id
            && r.store.personas[id].fnac == s.personas[id].fnac
            && r.store.personas[id].tipoRelacionId == s.personas[id].tipoRelacionId
            && r.store.personas[id].relacionadoCon == s.personas[id].relacionadoCon)
  {
    var w1 := OnClickPersona(s, w, Some((id, NombreFila(s.personas[id]))));
    LoadSaveBirthDate(d);
    SliceFormatIso(d);
    assert w1.ficha.fnac == FormatDisplay(d);
    var p := s.personas[id];
    if p.tipoRelacionId.Some? {
      assert TipoSeleccionado(w1) == p.tipoRelacionId;
    } else {
      assert w1.tipoIndex == -1;
    }
  }

  /** What state `alta` promises: no record id yet, and the contact and
      other data, which need an existing person, disabled. */
  predicate AltaCoherente(w: Ventana) {
    w.estado == Alta ==> w.nrp.None? && Contacto !in w.activos && Otros !in w.activos
  }

  /** Every handler keeps `AltaCoherente`. */
  lemma {:induction false} AltaCoherenteSeConserva(s: Store, w: Ventana, fila: Option<(int, string)>, confirma: bool,
                                                   fotoFichero: Option<Bytes>, fotoEtiqueta: Bytes)
    requires AltaCoherente(w)
    ensures AltaCoherente(Arranque(w))
    ensures AltaCoherente(OnAltaPersona(w))
    ensures AltaCoherente(OnCrearRelacion(w))
    ensures (fila.Some? && w.estado != Relacion ==> Cargable(s, fila.value.0)) ==>
      AltaCoherente(OnClickPersona(s, w, fila))
    ensures (w.estado != Alta && w.nrp.Some? ==> Cargable(s, w.nrp.value)) ==>
      AltaCoherente(OnCancelarPersona(s, w))
    ensures AltaCoherente(OnBorrarPersona(s, w, confirma).ventana)
    ensures (w.estado != Alta && w.nrp.Some? ==> w.nrp.value in s.personas) ==>
      AltaCoherente(OnGuardarPersona(s, w, fotoFichero, fotoEtiqueta).ventana)
  {
    if w.estado != Alta && w.nrp.Some? && w.nrp.value in s.personas {
      var r := OnGuardarPersona(s, w, fotoFichero, fotoEtiqueta);
      assert r.ventana.estado != Alta;
    }
  }

  // ---------------------------------------------------------------------
  // Search
  // ---------------------------------------------------------------------

  /** Whether `OnBuscar` shows a row whose name cell is `fila`. */
  predicate Visible(texto: string, fila: string) {
    |texto| == 0 || IsSubstring(Lower(texto), Lower(fila))
  }

  /** `OnBuscar`: one visibility flag per row of the person table. */
  method OnBuscar(texto: string, filas: seq<string>) returns (visibles: seq<bool>)
    ensures |visibles| == |filas|
    ensures forall i :: 0 <= i < |filas| ==> (visibles[i] <==> Visible(texto, filas[i]))
  {
    visibles := [];
    var i := 0;
    while i < |filas|
      invariant 0 <= i <= |filas|
      invariant |visibles| == i
      invariant forall j :: 0 <= j < i ==> (visibles[j] <==> Visible(texto, filas[j]))
    {
      var mostrar := true;
      if |texto| != 0 {
        mostrar := Contains(Lower(texto), Lower(filas[i]));
      }
      visibles := visibles + [mostrar];
      i := i + 1;
    }
  }

  /** The search ignores ASCII case on both sides. */
  lemma {:induction false} VisibleSinMayusculas(texto: string, fila: string)
    ensures Visible(texto, fila) <==> Visible(Lower(texto), Lower(fila))
  {
    LowerIdempotent(texto);
    LowerIdempotent(fila);
  }

  /** Typing a person's whole name cell, in any case, keeps that person visible. */
  lemma {:induction false} NombreCompletoVisible(texto: string, fila: string)
    requires Lower(texto) == Lower(fila)
    ensures Visible(texto, fila)
  {
    assert OccursAt(Lower(texto), Lower(fila), 0);
  }
}
