/** The raw checklist record and the configuration tables of app.py. */
module Records {
  import opened Wrappers
  import opened Text

  /** One record as the checklist API returns it, each field in its `str()`
      form. The fields read through `r.get(name) or ""` hold `None` for any
      falsy value (missing, `None`, `""`, `0`, `False`); `itemresult`, which
      `normalize_value` receives as it is, holds `None` only for a missing
      or `None` value, so a numeric zero there is `Some("0")`. */
  datatype Record = Record(
    shiftDate: Option<string>,
    shift: Option<string>,
    station: Option<string>,
    donetime: Option<string>,
    itemname: Option<string>,
    itemresult: Option<string>,
    operator: Option<string>,
    productproduced: Option<string>,
    productionOrder: Option<string>)

  /** `str(r.get(name) or "").strip()`: a missing field reads as empty and a
      present one is trimmed. */
  function Field(o: Option<string>): string {
    Trim(o.GetOr(""))
  }

  /** `ORDERED_ITEMS`: the checklist items of the report, in row order. */
  const OrderedItems: seq<string> := [
    "Θερμοκρασία λαμινατορίου (°C)",
    "Είδος μαργαρίνης",
    "Θερμοκρασία μαργαρίνης (°C)",
    "Λαμάκι μαργαρίνης (mm)",
    "Λαμάκι recupero (mm)",
    "Διάκενο μαχαιριών (cm)",
    "Πάχος extruder (1η)",
    "Πάχος extruder (2η)",
    "Ποσοστό μαργαρίνης (%)",
    "Ποσοστό ανακύκλωσης ζύμης recupero (%)"
  ]

  /** `set(ORDERED_ITEMS)`, the same items as a set, used for filtering. */
  function AllowedItems(items: seq<string>): (allowed: set<string>)
    ensures forall x :: x in allowed <==> x in items
  {
    set x | x in items
  }

  /** `SHIFT_START`: the nominal start of each shift. */
  const ShiftStart: map<string, string> := map["A" := "06:00", "B" := "14:00", "Γ" := "22:00"]
}
