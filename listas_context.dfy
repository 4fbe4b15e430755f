/** The app-wide store of `ListasContext.jsx`: the cached lists and the cached product catalog,
    each mutation mirrored to the JSON server. Every server round-trip is a parameter mapping
    the request to its `Response`; each operation runs as one atomic step. */
module ListasContext {
  import opened Records
  import opened Arrays

  /** `listas.find(l => l.id === id)`: the first cached list with that id. */
  function FindById(listas: seq<ListRecord>, id: Id): (r: Option<ListRecord>)
    ensures r.None? <==> forall i :: 0 <= i < |listas| ==> listas[i].id != id
    ensures r.Some? ==> r.value.id == id
    ensures r.Some? ==>
      exists i :: 0 <= i < |listas| && listas[i] == r.value &&
        forall j :: 0 <= j < i ==> listas[j].id != id
  {
    if listas == [] then None
    else if listas[0].id == id then Some(listas[0])
    else
      var r := FindById(listas[1..], id);
      assert forall i :: 1 <= i < |listas| ==> listas[i] == listas[1..][i - 1];
      r
  }

  /** `listas.filter(lista => lista.id !== id)` */
  function RemoveById(listas: seq<ListRecord>, id: Id): (r: seq<ListRecord>)
    ensures FindById(r, id) == None
    ensures forall i :: 0 <= i < |r| ==> r[i] in listas
    ensures forall i :: 0 <= i < |listas| && listas[i].id != id ==> listas[i] in r
  {
    Filter(listas, (l: ListRecord) => l.id != id)
  }

  /** Deleting keeps the other lists in their order. */
  lemma RemoveByIdKeepsOrder(a: seq<ListRecord>, b: seq<ListRecord>, id: Id)
    ensures RemoveById(a + b, id) == RemoveById(a, id) + RemoveById(b, id)
  {
    FilterAppend(a, b, (l: ListRecord) => l.id != id);
  }

  /** Deleting an id that is not cached changes nothing. */
  lemma RemoveByIdAbsent(listas: seq<ListRecord>, id: Id)
    requires FindById(listas, id) == None
    ensures RemoveById(listas, id) == listas
  {
    FilterAllKept(listas, (l: ListRecord) => l.id != id);
  }

  /** `listas.map(lista => lista.id === id ? data : lista)` */
  function ReplaceById(listas: seq<ListRecord>, id: Id, data: ListRecord): (r: seq<ListRecord>)
    ensures |r| == |listas|
    ensures forall i :: 0 <= i < |r| ==> r[i] == if listas[i].id == id then data else listas[i]
  {
    seq(|listas|, i requires 0 <= i < |listas| => if listas[i].id == id then data else listas[i])
  }

  /** Replacing an id that is not cached changes nothing. */
  lemma ReplaceByIdAbsent(listas: seq<ListRecord>, id: Id, data: ListRecord)
    requires FindById(listas, id) == None
    ensures ReplaceById(listas, id, data) == listas
  {
  }

  /** After a replacement by a record that keeps the id, looking the id up gives that record,
      and every other id still finds what it found before. */
  lemma {:induction false} ReplaceThenFind(listas: seq<ListRecord>, id: Id, data: ListRecord, other: Id)
    requires data.id == id && FindById(listas, id).Some? && other != id
    ensures FindById(ReplaceById(listas, id, data), id) == Some(data)
    ensures FindById(ReplaceById(listas, id, data), other) == FindById(listas, other)
  {
    if listas[0].id != id {
      assert ReplaceById(listas, id, data)[1..] == ReplaceById(listas[1..], id, data);
      ReplaceThenFind(listas[1..], id, data, other);
    }
    FindUnaffected(listas, id, data, other);
  }

  /** A replacement at `id` is invisible to a lookup of a different id. */
  lemma {:induction false} FindUnaffected(listas: seq<ListRecord>, id: Id, data: ListRecord, other: Id)
    requires data.id == id && other != id
    ensures FindById(ReplaceById(listas, id, data), other) == FindById(listas, other)
  {
    if listas != [] {
      assert ReplaceById(listas, id, data)[1..] == ReplaceById(listas[1..], id, data);
      FindUnaffected(listas[1..], id, data, other);
    }
  }

  /** `{...lista, ...dados}`: each field present in the patch overrides the cached one, and
      each absent field keeps its cached value. */
  function Merge(l: ListRecord, dados: ListPatch): (r: ListRecord)
    ensures dados.id.None? ==> r.id == l.id
    ensures dados.nome.None? ==> r.nome == l.nome
    ensures dados.itens.None? ==> r.itens == l.itens
    ensures dados.id.Some? ==> r.id == dados.id.value
    ensures dados.nome.Some? ==> r.nome == dados.nome.value
    ensures dados.itens.Some? ==> r.itens == dados.itens.value
  {
    ListRecord(
      if dados.id.Some? then dados.id.value else l.id,
      if dados.nome.Some? then dados.nome.value else l.nome,
      if dados.itens.Some? then dados.itens.value else l.itens)
  }

  /** The patch of `atualizarItensDaLista`: `{...lista, itens: novosItens}`. */
  function ItensPatch(novos: seq<StoredItem>): ListPatch {
    ListPatch(None, None, Some(novos))
  }

  /** Spreading a patch wins over the cached fields and keeps the rest: an item update
      replaces the items alone, a repeated patch is absorbed, an empty patch changes nothing. */
  lemma MergeOverrides(l: ListRecord, dados: ListPatch, novos: seq<StoredItem>)
    ensures Merge(l, ItensPatch(novos)) == l.(itens := novos)
    ensures Merge(Merge(l, dados), dados) == Merge(l, dados)
    ensures Merge(l, ListPatch(None, None, None)) == l
  {
  }

  /** The PUT body of an update of list `id`: the first cached record with that id, with `dados`
      spread over it, or no request at all when `id` is not cached. */
  function UpdateRequest(listas: seq<ListRecord>, id: Id, dados: ListPatch): (body: Option<ListRecord>)
    ensures body.None? <==> forall i :: 0 <= i < |listas| ==> listas[i].id != id
    ensures body.Some? ==>
      exists i :: 0 <= i < |listas| && listas[i].id == id && body.value == Merge(listas[i], dados) &&
        forall j :: 0 <= j < i ==> listas[j].id != id
  {
    match FindById(listas, id)
    case None => None
    case Some(l) => Some(Merge(l, dados))
  }

  /** The cached lists once the PUT of `body` to `/listas/id` is answered: the server's echo
      replaces every entry with that id; with no request, or a request that threw, the cache
      is as it was. */
  function AfterUpdate(listas: seq<ListRecord>, id: Id, body: Option<ListRecord>,
                       put: (Id, ListRecord) -> Response<ListRecord>): (r: seq<ListRecord>)
    ensures |r| == |listas|
    ensures forall i :: 0 <= i < |r| && listas[i].id != id ==> r[i] == listas[i]
    ensures body.None? || put(id, body.value).Failed? ==> r == listas
    ensures body.Some? && put(id, body.value).Ok? ==>
      forall i :: 0 <= i < |r| && listas[i].id == id ==> r[i] == put(id, body.value).value
  {
    match body
    case None => listas
    case Some(b) =>
      match put(id, b)
      case Ok(data) => ReplaceById(listas, id, data)
      case Failed => listas
  }

  /** An update of a list that is not cached sends nothing and changes nothing. */
  lemma UpdateAbsent(listas: seq<ListRecord>, id: Id, dados: ListPatch,
                     put: (Id, ListRecord) -> Response<ListRecord>)
    requires FindById(listas, id) == None
    ensures UpdateRequest(listas, id, dados) == None
    ensures AfterUpdate(listas, id, UpdateRequest(listas, id, dados), put) == listas
  {
  }

  /** `ListasProvider`'s state: `todasAsListas` and `produtosCadastrados`. */
  class ListasProvider {
    var todasAsListas: seq<ListRecord>
    var produtosCadastrados: seq<Product>

    /** Both caches start empty (`useState([])`). */
    constructor ()
      ensures todasAsListas == [] && produtosCadastrados == []
    {
      todasAsListas := [];
      produtosCadastrados := [];
    }

    /** The initial load: both collections are fetched and parsed, then both are set.
        If any of the four steps threw, neither is set. */
    method FetchData(listas: Response<seq<ListRecord>>, produtos: Response<seq<Product>>)
      modifies this
      ensures listas.Ok? && produtos.Ok? ==>
        todasAsListas == listas.value && produtosCadastrados == produtos.value
      ensures listas.Failed? || produtos.Failed? ==>
        todasAsListas == old(todasAsListas) && produtosCadastrados == old(produtosCadastrados)
    {
      if listas.Ok? && produtos.Ok? {
        todasAsListas := listas.value;
        produtosCadastrados := produtos.value;
      }
    }

    /** `adicionarNovaLista`: POST the new list; the server's record goes at the end. */
    method AdicionarNovaLista(novaLista: NewList, post: NewList -> Response<ListRecord>)
      modifies this`todasAsListas
      ensures post(novaLista).Ok? ==> todasAsListas == old(todasAsListas) + [post(novaLista).value]
      ensures post(novaLista).Failed? ==> todasAsListas == old(todasAsListas)
    {
      match post(novaLista)
      case Ok(data) => todasAsListas := todasAsListas + [data];
      case Failed =>
    }

    /** `excluirLista`: DELETE `/listas/id`; on success every list with that id leaves the
        cache, whatever the response said. */
    method ExcluirLista(id: Id, delete: Id -> Response<()>)
      modifies this`todasAsListas
      ensures delete(id).Ok? ==> todasAsListas == RemoveById(old(todasAsListas), id)
      ensures delete(id).Failed? ==> todasAsListas == old(todasAsListas)
    {
      if delete(id).Ok? {
        todasAsListas := RemoveById(todasAsListas, id);
      }
    }

    /** `editarLista`: for a cached list, PUT the cached record with `dados` spread over it and
        replace the entry by the echo; for an unknown id, send nothing. Returns the body sent. */
    method EditarLista(id: Id, dados: ListPatch, put: (Id, ListRecord) -> Response<ListRecord>)
      returns (body: Option<ListRecord>)
      modifies this`todasAsListas
      ensures body == UpdateRequest(old(todasAsListas), id, dados)
      ensures todasAsListas == AfterUpdate(old(todasAsListas), id, body, put)
    {
      var lista := FindById(todasAsListas, id);
      if lista.None? {
        return None;
      }
      body := Some(Merge(lista.value, dados));
      var response := put(id, body.value);
      if response.Ok? {
        todasAsListas := ReplaceById(todasAsListas, id, response.value);
      }
    }

    /** `atualizarItensDaLista`: `editarLista` with only the items replaced. */
    method AtualizarItensDaLista(id: Id, novosItens: seq<StoredItem>,
                                 put: (Id, ListRecord) -> Response<ListRecord>)
      returns (body: Option<ListRecord>)
      modifies this`todasAsListas
      ensures body.None? <==> FindById(old(todasAsListas), id).None?
      ensures body.Some? ==> body.value == FindById(old(todasAsListas), id).value.(itens := novosItens)
      ensures todasAsListas == AfterUpdate(old(todasAsListas), id, body, put)
    {
      var lista := FindById(todasAsListas, id);
      if lista.None? {
        return None;
      }
      body := Some(lista.value.(itens := novosItens));
      var response := put(id, body.value);
      if response.Ok? {
        todasAsListas := ReplaceById(todasAsListas, id, response.value);
      }
    }

    /** `adicionarNovoProdutoGlobal`: POST `{name}`; on success the new product is appended to
        the catalog and returned, on failure the catalog is kept and `null` returned. */
    method AdicionarNovoProdutoGlobal(nomeProduto: string, post: string -> Response<Product>)
      returns (produto: Option<Product>)
      modifies this`produtosCadastrados
      ensures post(nomeProduto).Ok? ==>
        produto == Some(post(nomeProduto).value) &&
        produtosCadastrados == old(produtosCadastrados) + [post(nomeProduto).value]
      ensures post(nomeProduto).Failed? ==>
        produto == None && produtosCadastrados == old(produtosCadastrados)
    {
      match post(nomeProduto)
      case Ok(data) =>
        produtosCadastrados := produtosCadastrados + [data];
        produto := Some(data);
      case Failed =>
        produto := None;
    }
  }
}
