# personal — a Dafny model of its record store and edit logic

`personal` is a desktop contact manager. A person has personal data (NIF,
name, two surnames, birth date, sex, photo, notes, a related person and a
relationship type) and any number of phones, e-mail addresses and postal
addresses. Each contact can be flagged as the person's preferred one. The
data lives in a six-table SQLite database behind a `DBManager` class. Qt
dialogs edit the contacts, and a main window edits the person.

This project models three parts of it.

- **The record store** (`personal/model/model.py`). The tables `persona`,
  `telefono`, `mail`, `direccion`, `codigo_postal` and `tipo_relacion` are
  finite maps from id to row. The declared constraints are predicates:
  NOT NULL columns, `check_nif`, `check_sexo`, `check_preferencia`,
  `check_cp`, and the UNIQUE columns (`nif` and `relacion` under ASCII
  NOCASE, `cp` exact). Every `DBManager` call is a pure function from the
  store before to the store after plus the `(ok, value)` reply, modelled as
  `Result`. A rejected write leaves the store as it was. Deleting a person
  cascades to the person's phones, mails and addresses. Modules `Results`,
  `Tables`, `Schema`, `Contacts`, `Db`, `DbLemmas`.
- **The phone and address dialogs** (`controller_telefonos.py`,
  `controller_direcciones.py`). `OnTerminar` is a decision procedure over
  the three buttons. It returns the store after its writes, the dialog's
  `ret` state, and the writes in the order they were issued. The address
  dialog first resolves the typed postal code (`OnCambiarCP`, `OnCP`,
  `__gestionar_cp`). The central property: every way a dialog ends keeps
  *at most one preferred row per person* in its table. Modules
  `DialogTelefonos`, `DialogDirecciones`, `Preferencias`.
- **The main window** (`controller.py`). The edit state
  `en_edicion | alta | relacion` with `activar_elementos`, loading a
  person, the save and delete handlers, the relationship-type combo, and
  the name search. Also the `dd/mm/YYYY` to `YYYY-MM-DD` birth-date
  conversion and its slicing inverse. Modules `Ventana`, `Dates`, `Text`.

I/O and user answers become parameters. `confirma` is the answer to a
confirmation box. `inicial` is the widgets of a fresh dialog. `fotoFichero`
is what reading the photo file gave. `fotoEtiqueta` is the PNG the photo
label encodes to.

## Model

| member | source | states |
|---|---|---|
| Schema.PersonaViolation | personal/model/model.py:43-59 | a `persona` row is rejected exactly when a NOT NULL column (nif, nombre, ap1, fnac, sexo) is missing, the NIF is not 9 long, or the sex is not Hombre/Mujer; the error names the first failing constraint in SQLite's order |
| Tables.Insert | personal/model/model.py:42 | a new row gets an id no row had, above every existing id, positive when all ids are; the table gains exactly that row |
| Db.AltaTipoRelacion | personal/model/model.py:220-237 | fails with a UNIQUE error, store unchanged, exactly when a type equal ignoring ASCII case exists; otherwise adds the row under a fresh id and touches no other table |
| Db.BajaTipoRelacion | personal/model/model.py:239-255 | a missing id is an error with the store unchanged; otherwise that row is removed and, as the ORM does for the one-to-many `t_rel_persona` of line 195, every person that referred to it has `tipo_relacion_id` set to NULL, so no person refers to the deleted type; nothing else changes |
| Db.ModificarTipoRelacion | personal/model/model.py:257-273 | for an existing id: refused exactly when another row holds the name ignoring case; otherwise only that row changes |
| Db.ObtenerTodosTiposRelacion | personal/model/model.py:275-290 | returns every type with its id |
| Db.AltaTelefono | personal/model/model.py:296-314 | fails with `check_preferencia`, store unchanged, exactly when the flag is not 0 or 1; otherwise adds exactly the given row under a fresh id |
| Db.BajaTelefono | personal/model/model.py:316-332 | a missing id is an error with the store unchanged; otherwise only that phone goes |
| Db.ModificarTelefono | personal/model/model.py:334-353 | for an existing id: refused exactly on a bad flag; otherwise number, flag and notes change and the owner stays |
| Db.ModificarPreferenciaTlfno | personal/model/model.py:355-377 | every phone of the person except the kept one gets flag 0; the kept phone, other persons' phones and every other field are unchanged |
| Db.ObtenerTelefonosPorPersonaId | personal/model/model.py:379-394 | returns exactly the phones of that person, unchanged |
| Db.AltaMail | personal/model/model.py:400-417 | as for phones, on `mail` |
| Db.BajaMail | personal/model/model.py:419-435 | as for phones, on `mail` |
| Db.ModificarMail | personal/model/model.py:437-457 | as for phones, on `mail` |
| Db.ModificarPreferenciaMail | personal/model/model.py:459-481 | as for phones, on `mail` |
| Db.ObtenerMailsPorPersonaId | personal/model/model.py:483-498 | returns exactly the mails of that person |
| Db.AltaDireccion | personal/model/model.py:504-525 | as for phones, the value being street plus postal-code row |
| Db.BajaDireccion | personal/model/model.py:527-542 | as for phones, on `direccion` |
| Db.ModificarDireccion | personal/model/model.py:544-564 | as for phones, on `direccion` |
| Db.ObtenerDireccionesPorPersonaId | personal/model/model.py:566-581 | returns exactly the addresses of that person |
| Db.ModificarPreferenciaDireccion | personal/model/model.py:583-606 | as for phones, on `direccion` |
| Db.AltaCodigoPostal | personal/model/model.py:612-630 | a code not 5 long fails `check_cp`; a code held by a row, compared exactly, fails UNIQUE; both leave the store unchanged; otherwise the row is added under a fresh id |
| Db.ModificarCodigoPostal | personal/model/model.py:632-651 | for an existing id: the same two refusals, ignoring the row itself; otherwise only that row changes |
| Db.ObtenerCodigoPostalPorId | personal/model/model.py:653-667 | the row when the id exists, nothing otherwise |
| Db.ObtenerCodigoPostalPorCp | personal/model/model.py:669-683 | nothing exactly when no row holds the code; otherwise a row holding exactly that code, and in a valid store the only one |
| Db.AltaPersona | personal/model/model.py:689-710 | fails exactly when the row breaks a constraint or the NIF is taken ignoring case, with the matching error and the store unchanged; otherwise adds the given fields, notes and relations NULL, under a fresh id |
| Db.BajaPersona | personal/model/model.py:712-729 | a missing id is an error; otherwise the person and every phone, mail and address of theirs go, and nothing else in the model changes |
| Db.ModificarPersona | personal/model/model.py:731-760 | for an existing id: the same refusals, the NIF check ignoring the row itself; otherwise every column is overwritten |
| Db.ObtenerTodasPersonas | personal/model/model.py:762-779 | returns every person with its id |
| Db.ObtenerPersonaPorId | personal/model/model.py:781-794 | the row when the id exists, nothing otherwise |
| DbLemmas.AltaPersonaLeida | personal/model/model.py:689-710 | a person just added reads back by id with exactly the given fields; the id was free before |
| DbLemmas.NifRepetido | personal/model/model.py:43 | after an `alta_persona`, a second one whose NIF differs only in ASCII case fails UNIQUE and changes nothing |
| DbLemmas.BajaPersonaContactos | personal/model/model.py:68-73 | after `baja_persona` the person has no phones, mails or addresses, and every other person has the same ones as before |
| DbLemmas.AltaBajaContactos | personal/model/model.py:296-332 | deleting a phone, mail or address just added gives the store back |
| DbLemmas.ModificarTelefonoLeido | personal/model/model.py:334-394 | a modified phone reads back under its owner with the new values |
| DbLemmas.AltaCodigoPostalEncontrado | personal/model/model.py:612-683 | in a valid store, a code just added is what the lookup by code returns |
| DbLemmas.CodigoPostalRepetido | personal/model/model.py:165 | a code no row holds is accepted once, and a second add of it is refused |
| DbLemmas.TipoRelacionRepetido | personal/model/model.py:186-200 | a type differing only in case from one just added is refused |
| DbLemmas.PreferenciaUnica | personal/model/model.py:355-606 | after clearing with a preferred row kept, that row is its owner's only preferred one, in each contact table |
| Contacts.ClearOthersRestores | personal/model/model.py:355-377 | clearing a person's other rows brings back "at most one preferred row per person" when only that person could break it |
| Contacts.AddKeeps | personal/model/model.py:296-314 | an insert can break the single-preferred invariant only for the row's own person, and not at all when the row is not preferred |
| Contacts.UpdateKeeps | personal/model/model.py:334-353 | the same for a modification |
| Contacts.RemoveKeeps | personal/model/model.py:316-332 | a delete keeps the single-preferred invariant |
| Preferencias.Display | personal/controller/controller.py:768 | a contact cell reads "X" exactly when the stored flag is 1, "" otherwise |
| Preferencias.ComboInicial | personal/controller/controller_telefonos.py:56-59 | a dialog opens with "Si" exactly when the cell reads "X", "No" otherwise |
| Preferencias.FromCombo | personal/controller/controller_telefonos.py:148-149 | the saved flag is 1 exactly when the combo reads "Si", else 0 |
| Preferencias.RoundTrip | personal/controller/controller_telefonos.py:56-149 | store to cell to combo to store gives back every admissible flag |
| Preferencias.SavedIsPreferredIffStored | personal/controller/controller_direcciones.py:62-253 | for any stored value, the flag saved back is 1 exactly when it was 1 |
| DialogTelefonos.Abrir | personal/controller/controller_telefonos.py:30-66 | a new phone keeps the default widgets; an existing one shows its number and notes, and "Si" exactly when its cell reads "X" |
| DialogTelefonos.Guardar | personal/controller/controller_telefonos.py:141-166 | accept creates when there is no row and modifies that row otherwise, with the stripped number and notes and the combo's flag |
| DialogTelefonos.OnTerminar | personal/controller/controller_telefonos.py:106-191 | cancel: no call, `operacion` False, closed; declined delete: nothing; confirmed delete: one `baja_telefono`, no clearing; accept: the save, then a clear of the person's other preferred phones exactly when the save succeeded with flag 1; a failure issues nothing more, sets False, stays open; only `telefono` is written |
| DialogTelefonos.PreservaPreferidoUnico | personal/controller/controller_telefonos.py:141-177 | every way the dialog ends keeps at most one preferred phone per person |
| DialogTelefonos.GuardadoUnicoPreferido | personal/controller/controller_telefonos.py:170-175 | a phone saved as preferred is its person's only preferred phone afterwards |
| DialogDirecciones.Abrir | personal/controller/controller_direcciones.py:31-108 | an existing address shows its street, its postal-code row's code, town and province, and "Si" exactly when its cell reads "X" |
| DialogDirecciones.OnCambiarCP | personal/controller/controller_direcciones.py:78-83 | the code box takes the text; emptying it clears town and province; nothing else changes |
| DialogDirecciones.OnCP | personal/controller/controller_direcciones.py:110-133 | `cp_id` is set exactly when a row holds the stripped code, and the form then shows that row; otherwise `cp_id` is cleared and town and province are emptied |
| DialogDirecciones.GestionarCp | personal/controller/controller_direcciones.py:173-204 | with no `cp_id` the typed code is created, otherwise row `cp_id` is overwritten; it succeeds exactly when the code is 5 long and held by no other row, and `cp_id` becomes the row written |
| DialogDirecciones.Guardar | personal/controller/controller_direcciones.py:247-278 | the address is created or modified against the settled postal-code row, with the combo's flag |
| DialogDirecciones.Aceptado | personal/controller/controller_direcciones.py:247-301 | the postal code comes first and stays written; a refused code stops everything with the dialog untouched; otherwise the address write follows against that row, then a clear exactly when the address is preferred |
| DialogDirecciones.OnTerminar | personal/controller/controller_direcciones.py:206-303 | cancel, declined and confirmed delete as in the phone dialog; accept is `Aceptado`; only `direccion` and `codigo_postal` are written |
| DialogDirecciones.PreservaPreferidoUnico | personal/controller/controller_direcciones.py:247-289 | every way the dialog ends keeps at most one preferred address per person |
| DialogDirecciones.GuardadaUnicaPreferida | personal/controller/controller_direcciones.py:280-289 | an address saved as preferred, its code accepted, is its person's only preferred address |
| DialogDirecciones.CodigoExistenteSobrescrito | personal/controller/controller_direcciones.py:178-183 | with `cp_id` set, no postal-code row is added: the existing row is overwritten |
| DialogDirecciones.CodigoConocidoReutilizado | personal/controller/controller_direcciones.py:127 | a code `OnCP` found is reused on accept: no new postal-code row, and the address points at the found row |
| DialogDirecciones.CodigoNuevoCreado | personal/controller/controller_direcciones.py:184-187 | a code `OnCP` did not find is created on accept as a new row, unless it is not 5 long |
| Text.Strip | personal/controller/controller.py:389 | Python's `strip()`: the result is a slice of the input with no whitespace at either end, and only whitespace was cut |
| Text.Lower | personal/controller/controller.py:1006-1007 | `lower()` keeps the length and maps each character to its ASCII lower case, so A to Z become a to z and every other character stays |
| Text.Contains | personal/controller/controller.py:1006-1007 | decides Python's `in` on strings: true exactly when the needle occurs at some position |
| Dates.DaysInMonth | personal/controller/controller.py:1242 | month lengths as `datetime` checks them: April, June, September and November have 30 days, February 29 exactly in leap years and 28 otherwise, every other month 31 |
| Dates.YearLength | personal/controller/controller.py:1242 | the twelve month lengths add up to 366 in a leap year and to 365 otherwise |
| Dates.ParseDisplay | personal/controller/controller.py:1242 | `strptime(…, "%d/%m/%Y")` accepts only valid dates |
| Dates.ConvertBirthDate | personal/controller/controller.py:1240-1245 | a text converts exactly when it parses, to the `YYYY-MM-DD` text of that date |
| Dates.FormatIso | personal/controller/controller.py:1243 | `strftime("%Y-%m-%d")`: ten characters, dashes at 4 and 7, and the numerals before, between and after them read as the year, month and day of the date |
| Dates.SliceDate | personal/controller/controller.py:561-563 | the three `int()` slices give a year below 10000 and a month and day below 100, which need not form a valid date |
| Dates.FormatDisplay | personal/controller/controller.py:564 | the date box text: ten characters, slashes at 2 and 5, and the numerals read as day, month and year of the date |
| Dates.SliceFormatIso | personal/controller/controller.py:561-564 | slicing `[0:4]`, `[5:7]`, `[8:10]` of a stored date gives back the year, month and day that were written |
| Dates.ParseFormatDisplay | personal/controller/controller.py:1242 | the `dd/mm/YYYY` text of a date parses back to that date |
| Dates.LoadSaveBirthDate | personal/controller/controller.py:561-564 | loading a stored date into the date box and saving it again writes the same text |
| Dates.ParseShortFields | personal/controller/controller.py:1242 | for every one-digit day and month and every year, the unpadded text parses exactly when it is a valid date, to that date |
| Dates.ParseBlankDay | personal/controller/controller.py:1242 | for every one-digit day written after a blank, every month and every year, the text parses exactly when it is a valid date, to that date |
| Dates.ParseFixedFields | personal/controller/controller.py:1242 | for every day 1..31, month 1..12 and year 0..9999 written with zero padding, the text parses to that date exactly when it is a valid date, and is rejected otherwise (year 0, a day past the month's end) |
| Dates.ParseDayPastMonthEnd | personal/controller/controller.py:1242 | every day past the end of its month, in every month of every year, is rejected |
| Dates.ParseMonthOutOfRange | personal/controller/controller.py:1242 | a two-digit month from 13 to 99 is rejected whatever the day and year fields hold |
| Dates.ParseYearNotFour | personal/controller/controller.py:1242 | a year field that is not four characters long is rejected, so a two-digit year is never accepted |
| Ventana.ActivarElementos | personal/controller/controller.py:507-538 | a group named by the option takes the given state; every other group keeps its own; `relacion` and `en_edicion` name all groups but search |
| Ventana.Arranque | personal/controller/controller.py:82-103 | the window starts in `en_edicion` with only search and the operation buttons left enabled |
| Ventana.IndexOf | personal/controller/controller.py:290-296 | the first position of the type in the combo, or -1 exactly when no item carries it |
| Ventana.PosicionarTipoRelacion | personal/controller/controller.py:282-302 | no stored type selects nothing; a type the combo carries selects its first item; a type no item carries is cleared and the combo left where it was |
| Ventana.PoblarTipoRelaciones | personal/controller/controller.py:304-345 | the combo lists the queried types in reverse order, each inserted at the top |
| Ventana.PoblarPosiciona | personal/controller/controller.py:282-345 | every type the combo was filled with is found when positioning |
| Ventana.TipoSeleccionado | personal/controller/controller.py:1213-1217 | the type saved is the current item's data, none when no item is current |
| Ventana.PosicionarConserva | personal/controller/controller.py:282-302 | a type the combo carries survives positioning and is what saving reads back |
| Ventana.Limpiar | personal/controller/controller.py:477-505 | every text box, the record id, the relation boxes and the combo are emptied; the sex combo and the state are kept |
| Ventana.CargarPersona | personal/controller/controller.py:540-616 | the form shows the stored row, the date in `dd/mm/YYYY`, the related person's name and the positioned type; personal, contact and other data are enabled |
| Ventana.OnAltaPersona | personal/controller/controller.py:1164-1178 | state `alta`, an empty form, and only the personal data enabled |
| Ventana.OnCrearRelacion | personal/controller/controller.py:161-165 | state `relacion`, and only the search box can stay enabled |
| Ventana.OnClickPersona | personal/controller/controller.py:618-636 | no current row: nothing; in `relacion` only the related person's id and name change; otherwise the person is loaded and the state is `en_edicion` |
| Ventana.OnCancelarPersona | personal/controller/controller.py:1126-1162 | the form is cleared; in `en_edicion` or `relacion` the current person is loaded again and the state is `en_edicion`; in `alta` the state stays `alta` with only search and operations enabled |
| Ventana.OnBorrarPersona | personal/controller/controller.py:1098-1124 | no record id or a declined confirmation: nothing; a confirmed delete of an existing person runs `baja_persona`, clears the form and disables editing |
| Ventana.ActivarTodo | personal/controller/controller.py:1294-1296 | after a successful save every group is enabled |
| Ventana.EscribirAlta | personal/controller/controller.py:1254-1278 | in `alta` a new person is created from the stripped form, the converted date and the chosen photo; on success the record id shows the new id |
| Ventana.EscribirModificacion | personal/controller/controller.py:1264-1273 | otherwise the current person is overwritten with the form, the photo label, the notes, the combo's type and the related person |
| Ventana.OnGuardarPersona | personal/controller/controller.py:1180-1311 | no record id outside `alta`: nothing; past that, `relacion` becomes `en_edicion`; a typed date that is not a date writes nothing; a successful save ends in `en_edicion` with everything enabled; a failed one leaves the store as it was |
| Ventana.GuardadaCargable | personal/controller/controller.py:1241-1273 | a person the window saved can be loaded back: its stored date slices into a valid date |
| Ventana.CargarGuardarConserva | personal/controller/controller.py:540-616 | loading a person and saving untouched writes back the same birth date, type and related person |
| Ventana.AltaCoherenteSeConserva | personal/controller/controller.py:1164-1178 | every handler keeps "in `alta` there is no record id and contact and other data are disabled" |
| Ventana.OnBuscar | personal/controller/controller.py:986-1013 | a row is shown exactly when the search text is empty or its lower case occurs in the row's lower-cased name |
| Ventana.VisibleSinMayusculas | personal/controller/controller.py:1006-1007 | the search result does not depend on ASCII letter case on either side |
| Ventana.NombreCompletoVisible | personal/controller/controller.py:1006-1007 | typing a person's whole name cell, in any case, keeps the person visible |

## Left out

- Qt widget work is not modelled: message boxes, table sizing, icons, tooltips, cursor positions, pixmaps and file dialogs. Only the state these handlers read and write is.
- Photos are opaque bytes. Reading the file, the PIL resize and the PNG re-encode are not modelled; their results are parameters.
- The report module (`controller_informes.py`), `view.py`, `__main__.py` and `setup.py` are not part of this model: they are PDF building, OS calls, paths and packaging.
- The mail dialog is not part of this model: its source is not available. The store's mail operations are modelled.
- Other main-window handlers are not modelled: the relationship-type table editing (`OnCrearTipoRel`, `OnBorrarTipoRel`, `OnSalvarTipoRel`, paging), `OnBorrarRel`, `OnFoto`/`OnBorrarFoto`, and the contact-table handlers. They are widget glue around the modelled store calls.
- The SQLAlchemy session lifecycle, logging, and I/O failures of the database are not modelled. A query therefore always succeeds, and a store error is always a constraint error or a missing row.
- Foreign keys are not checked, as SQLite does not enforce them here. A contact may name a person or postal code that does not exist.
- Db.BajaPersona: when a person is deleted, other persons' `relacionado_con` that pointed at them is left as it was; the ORM's handling of that self-referencing relationship is not modelled.
- NOCASE, `lower()`, `strip()` and the digit classes of `strptime` are modelled for ASCII only. Python's Unicode behaviour is not.
- Queries return maps, so the row order SQLite returns is not modelled. `PoblarTipoRelaciones` takes the query's order as its input.
- Integers are unbounded. SQLite's 64-bit rowid limit is not modelled.
- Text columns of the contact, postal-code and relationship-type tables are never NULL in the model, because every caller passes text.
- Db.ModificarTelefono: a missing id is a precondition, not a result. The source dereferences `None` and the `AttributeError` escapes. The same holds for every other `modificar_*` member.
- Dates.FormatIso: `%Y` is written as four digits. Python pads years below 1000 depending on the platform; the date box cannot show such years.
- Ventana.CargarPersona: requires a row whose related person exists and whose birth date slices into three numerals that form a valid date. A missing related person makes `persona_relacionada` dereference `None` and raise. Numeral slices that are not a calendar date (`2001-02-30`, month 13, year 0000) do not raise: `QDate` is invalid, `setDate` ignores it, and the box keeps the previous date. `int()` also accepts slices such as " 2" or "+2". The model excludes all such rows; the window never writes them (`Ventana.GuardadaCargable`). The date box's range limits are not modelled.
- DialogDirecciones.Abrir: requires a `cp_id` naming a stored postal-code row for an existing address. `poblar_CP` raises otherwise: `int(None)` for a NULL id, and `None.cp` for a missing row. No `DBManager` call deletes a postal-code row, so a stored address keeps its row.
- Ventana.Limpiar: the cleared date box is modelled as empty text. What Qt's `QDateEdit.clear()` leaves in the box is not modelled.
- The date box is assumed to display `dd/mm/yyyy`. Its display format is a Qt setting outside the code.
- In the dialogs the clearing write cannot fail, and neither can a contact write: the flag always comes from the combo as 0 or 1. The source's unchecked result of the clearing call therefore never matters here.
- The dialogs' default widget values are a parameter (`inicial`). They come from the generated view class.
- The texts of messages and the error details shown to the user are not modelled.
