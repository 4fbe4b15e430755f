/** The records the app exchanges with its JSON server and keeps in React state. */
module Records {

  /** A value that may be absent: `null`/`undefined` in the app. */
  datatype Option<T> = None | Some(value: T)

  /** The outcome of one server round-trip: the parsed JSON body, or `Failed` when `fetch`
      or `response.json()` threw. The HTTP status is never looked at, so an error status
      whose body parses is an `Ok` too. */
  datatype Response<T> = Ok(value: T) | Failed

  /** Identifiers are assigned by the server and compared with `===`. */
  type Id = string

  /** An entry of `produtos_cadastrados`, the global product catalog. */
  datatype Product = Product(id: Id, name: string)

  /** An item of a list as the pages hold it: `{id, name, quantidade, comprado}`. */
  datatype Item = Item(id: Id, name: string, quantidade: int, comprado: bool)

  /** An item as stored on the server, where `comprado` may be missing. */
  datatype StoredItem = StoredItem(id: Id, name: string, quantidade: int, comprado: Option<bool>)

  /** An entry of `listas`: `{id, nome, itens}`. */
  datatype ListRecord = ListRecord(id: Id, nome: string, itens: seq<StoredItem>)

  /** The body posted to create a list: `{nome, itens}`; the server adds the id. */
  datatype NewList = NewList(nome: string, itens: seq<StoredItem>)

  /** The fields spread over a cached list record by an edit (`{...lista, ...dados}`);
      an absent field keeps the cached value. */
  datatype ListPatch = ListPatch(id: Option<Id>, nome: Option<string>, itens: Option<seq<StoredItem>>)
}
