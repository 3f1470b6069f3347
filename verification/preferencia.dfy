/** How the preferred flag travels between the store, the contact tables of
    the main window and the "Preferencia" combo of a contact dialog:
    `1`/`0` in the store, `"X"`/`""` in a table cell, `"Si"`/`"No"` in the combo.
 */
module Preferencias {
  /** The table cell: `"X" if str(preferencia) == "1" else ""`
      (personal/controller/controller.py). */
  function Display(v: int): (cell: string)
    ensures cell == "X" <==> v == 1
    ensures cell == "" <==> v != 1
  {
    if v == 1 then "X" else ""
  }

  /** The combo a dialog opens with for an existing row: `"Si"` when the cell
      it was handed reads `"X"`, `"No"` otherwise. */
  function ComboInicial(cell: string): (combo: string)
    ensures combo == "Si" <==> cell == "X"
    ensures combo == "No" <==> cell != "X"
  {
    if cell == "X" then "Si" else "No"
  }

  /** The flag a dialog saves: 1 when the combo reads `"Si"`, else 0. */
  function FromCombo(combo: string): (v: int)
    ensures v == 0 || v == 1
    ensures v == 1 <==> combo == "Si"
  {
    if combo == "Si" then 1 else 0
  }

  /** Opening a dialog on a stored row and saving it untouched writes back
      the flag that was stored, for every value `check_preferencia` admits. */
  lemma RoundTrip(v: int)
    requires v == 0 || v == 1
    ensures FromCombo(ComboInicial(Display(v))) == v
  {
  }

  /** Whatever the store held, the flag saved back is 1 exactly when it was 1. */
  lemma SavedIsPreferredIffStored(v: int)
    ensures FromCombo(ComboInicial(Display(v))) == 1 <==> v == 1
  {
  }
}
