/** Rows of the `boards`, `lists` and `tasks` tables as the client holds them: plain objects,
    that is, maps from field name to a JSON-like value. A field that is absent is `undefined`. */
module Records {
  import opened Common
  import Text

  /** The values that appear in a row: strings, integers (numbers are modelled as integers),
      booleans, `null`, and string arrays (task labels). */
  datatype Value = Str(s: string) | Num(n: int) | Bool(b: bool) | Null | Strs(items: seq<string>)

  type Record = map<string, Value>

  /** `r.k`: `None` stands for `undefined`. */
  function Field(r: Record, k: string): (v: Option<Value>)
    ensures v.Some? <==> k in r
    ensures v.Some? ==> v.value == r[k]
  {
    if k in r then Some(r[k]) else None
  }

  /** `r.id === id` for a string `id`. */
  predicate HasId(r: Record, id: string) {
    Field(r, "id") == Some(Str(id))
  }

  /** `a.id === b.id` (two absent ids compare equal, as `undefined === undefined`). */
  predicate SameId(a: Record, b: Record) {
    Field(a, "id") == Field(b, "id")
  }

  /** A row whose `version` field is a number, as the row types promise. */
  predicate Versioned(r: Record) {
    "version" in r && r["version"].Num?
  }

  function VersionOf(r: Record): int
    requires Versioned(r)
  {
    r["version"].n
  }

  /** `{ ...base, ...top }`: every field of `top` wins; `base` supplies the rest. */
  function Overlay(base: Record, top: Record): (r: Record)
    ensures r.Keys == base.Keys + top.Keys
    ensures forall k :: k in top ==> r[k] == top[k]
    ensures forall k :: k in base && k !in top ==> r[k] == base[k]
  {
    base + top
  }

  /** Overlaying the same fields twice is the same as overlaying them once. */
  lemma OverlayIdempotent(base: Record, top: Record)
    ensures Overlay(Overlay(base, top), top) == Overlay(base, top)
  {
    assert Overlay(Overlay(base, top), top).Keys == Overlay(base, top).Keys;
  }

  /** The string an id value becomes when it is used as an object property key. */
  function PropertyKey(v: Option<Value>): string {
    match v
    case None => "undefined"
    case Some(Str(s)) => s
    case Some(Num(n)) => if n < 0 then "-" + Text.NatToString(-n) else Text.NatToString(n)
    case Some(Bool(b)) => if b then "true" else "false"
    case Some(Null) => "null"
    case Some(Strs(items)) => Text.Join(items, ',')
  }
}
