/** The six tables of `personal.db` and the constraints their declarations
    carry (personal/model/model.py, the `Persona` … `TipoRelacion` classes).

    A row is stored without its id; a table maps id to row. Columns a caller
    may leave NULL are `Option`s. Text columns of the three contact tables,
    of `codigo_postal` and of `tipo_relacion` are plain strings: every caller
    passes text for them.
 */
module Schema {
  import opened Results
  import opened Text

  type Bytes = seq<bv8>

  /** A row of `persona`. `fnac` holds a `YYYY-MM-DD` string; `foto` is an
      opaque image blob. */
  datatype Persona = Persona(
    nif: Option<string>,
    nombre: Option<string>,
    ap1: Option<string>,
    ap2: Option<string>,
    fnac: Option<string>,
    relacionadoCon: Option<int>,
    tipoRelacionId: Option<int>,
    observ: Option<string>,
    foto: Option<Bytes>,
    sexo: Option<string>)

  /** The shape `telefono`, `mail` and `direccion` share: an owning person,
      a value, a preferred flag and free-text notes. */
  datatype Contact<V> = Contact(personaId: int, value: V, preferencia: int, observ: Option<string>)

  /** A row of `telefono`; the value is `numero`. */
  type Telefono = Contact<string>

  /** A row of `mail`; the value is `mail`. */
  type Mail = Contact<string>

  /** The value columns of `direccion`: the street text and the postal code row. */
  datatype Postal = Postal(direccion: string, cpId: int)

  /** A row of `direccion`. */
  type Direccion = Contact<Postal>

  /** A row of `codigo_postal`. */
  datatype CodigoPostal = CodigoPostal(cp: string, localidad: string, provincia: string)

  /** A row of `tipo_relacion`. */
  datatype TipoRelacion = TipoRelacion(relacion: string)

  datatype Store = Store(
    personas: map<int, Persona>,
    telefonos: map<int, Telefono>,
    mails: map<int, Mail>,
    direcciones: map<int, Direccion>,
    codigos: map<int, CodigoPostal>,
    tipos: map<int, TipoRelacion>)

  const EmptyStore: Store := Store(map[], map[], map[], map[], map[], map[])

  // ---------------------------------------------------------------------
  // Row constraints
  // ---------------------------------------------------------------------

  /** The values `check_sexo` admits (compared exactly: `sexo` has no collation). */
  const Sexos: set<string> := {"Hombre", "Mujer"}

  /** Every NOT NULL column of `persona` is present, `check_nif` and `check_sexo` hold. */
  predicate PersonaOk(p: Persona) {
    && p.nif.Some? && p.nombre.Some? && p.ap1.Some? && p.fnac.Some? && p.sexo.Some?
    && |p.nif.value| == 9
    && p.sexo.value in Sexos
  }

  /** The error SQLite reports for a `persona` row: NOT NULL columns in
      declaration order first, then the CHECK constraints in declaration order. */
  function PersonaViolation(p: Persona): (e: Option<DbError>)
    ensures e.None? <==> PersonaOk(p)
  {
    if p.nif.None? then Some(NotNull("nif"))
    else if p.nombre.None? then Some(NotNull("nombre"))
    else if p.ap1.None? then Some(NotNull("ap1"))
    else if p.fnac.None? then Some(NotNull("fnac"))
    else if p.sexo.None? then Some(NotNull("sexo"))
    else if |p.nif.value| != 9 then Some(Check("check_nif"))
    else if p.sexo.value !in Sexos then Some(Check("check_sexo"))
    else None
  }

  /** `check_preferencia` of `telefono`, `mail` and `direccion`. */
  predicate PreferenciaOk(v: int) {
    v == 0 || v == 1
  }

  /** `check_cp` of `codigo_postal`. */
  predicate CodigoOk(c: CodigoPostal) {
    |c.cp| == 5
  }

  // ---------------------------------------------------------------------
  // UNIQUE constraints: is the value already held by a row other than `except`?
  // ---------------------------------------------------------------------

  /** `nif` is UNIQUE under NOCASE; NULLs never clash. */
  predicate NifTaken(t: map<int, Persona>, nif: Option<string>, except: Option<int>) {
    nif.Some? &&
    exists id :: id in t && Some(id) != except && t[id].nif.Some? && NoCaseEq(t[id].nif.value, nif.value)
  }

  /** `cp` is UNIQUE, compared exactly. */
  predicate CpTaken(t: map<int, CodigoPostal>, cp: string, except: Option<int>) {
    exists id :: id in t && Some(id) != except && t[id].cp == cp
  }

  /** `relacion` is UNIQUE under NOCASE. */
  predicate RelacionTaken(t: map<int, TipoRelacion>, relacion: string, except: Option<int>) {
    exists id :: id in t && Some(id) != except && NoCaseEq(t[id].relacion, relacion)
  }

  // ---------------------------------------------------------------------
  // Table and store invariants
  // ---------------------------------------------------------------------

  /** Ids are positive: rowids handed out start at 1. */
  ghost predicate IdsPositive<R>(t: map<int, R>) {
    forall id :: id in t ==> id >= 1
  }

  ghost predicate PersonasOk(t: map<int, Persona>) {
    && IdsPositive(t)
    && (forall id :: id in t ==> PersonaOk(t[id]))
    && (forall i, j :: i in t && j in t && i != j ==> !NoCaseEq(t[i].nif.value, t[j].nif.value))
  }

  ghost predicate ContactsOk<V>(t: map<int, Contact<V>>) {
    && IdsPositive(t)
    && (forall id :: id in t ==> PreferenciaOk(t[id].preferencia))
  }

  ghost predicate CodigosOk(t: map<int, CodigoPostal>) {
    && IdsPositive(t)
    && (forall id :: id in t ==> CodigoOk(t[id]))
    && (forall i, j :: i in t && j in t && i != j ==> t[i].cp != t[j].cp)
  }

  ghost predicate TiposOk(t: map<int, TipoRelacion>) {
    && IdsPositive(t)
    && (forall i, j :: i in t && j in t && i != j ==> !NoCaseEq(t[i].relacion, t[j].relacion))
  }

  /** Every table satisfies the constraints its declaration carries. Foreign
      keys are not part of it: SQLite does not enforce them unless told to. */
  ghost predicate Valid(s: Store) {
    && PersonasOk(s.personas)
    && ContactsOk(s.telefonos)
    && ContactsOk(s.mails)
    && ContactsOk(s.direcciones)
    && CodigosOk(s.codigos)
    && TiposOk(s.tipos)
  }
}
