/** The browser's `localStorage`, seen through `JSON.stringify` and
    `JSON.parse`. A stored string is abstracted by what parsing it yields:
    either the list of records it encodes, or text that does not parse. */
module Storage {
  import opened JsValues

  datatype Payload<T> = Serialized(items: seq<T>) | Malformed(text: string)

  type Store<T> = map<string, Payload<T>>

  /** `JSON.stringify` of a list. */
  function Stringify<T>(xs: seq<T>): (p: Payload<T>)
    ensures Parse(p) == Some(xs)
    ensures NonEmptyText(p)
  {
    Serialized(xs)
  }

  /** `JSON.parse`, with a thrown `SyntaxError` as `None`. */
  function Parse<T>(p: Payload<T>): Option<seq<T>> {
    match p
    case Serialized(xs) => Some(xs)
    case Malformed(_) => None
  }

  /** `if (stored)`: the stored string is not empty. The JSON text of a list
      is never empty; malformed text may be. */
  predicate NonEmptyText<T>(p: Payload<T>) {
    p.Serialized? || p.text != ""
  }

  /** `localStorage.getItem(key)`, with `null` as `None`. */
  function GetItem<T>(store: Store<T>, key: string): Option<Payload<T>> {
    if key in store then Some(store[key]) else None
  }
}
