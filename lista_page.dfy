/** The state of the list page (`Lista.jsx`): the items of the open list and the search field.
    Every item change is written to the page state and then sent to the store, which PUTs the
    whole list record. The page shows its controls only while the list with its route id is
    cached, so the handlers run with `id` naming a cached list; if it is gone, the store's
    update is a no-op. */
module ListaPage {
  import opened Records
  import opened ItemOps
  import opened Catalog
  import opened ListasContext

  /** The cached lists after the page saved `itens` for list `id`. */
  function Saved(listas: seq<ListRecord>, id: Id, itens: seq<Item>,
                 put: (Id, ListRecord) -> Response<ListRecord>): seq<ListRecord>
  {
    AfterUpdate(listas, id, UpdateRequest(listas, id, ItensPatch(Store(itens))), put)
  }

  /** What the "create product" action ended in, with the alert it shows, if any. */
  datatype CreateOutcome =
    | Ignored        // blank field: nothing happens
    | Added          // the product was added and the field cleared
    | AlreadyInList  // "Esse item já está na lista!"
    | CreateError    // "Erro ao salvar novo produto!"

  class Lista {
    const contexto: ListasProvider
    const id: Id
    var itens: seq<Item>
    var campoDeBusca: string

    constructor (contexto: ListasProvider, id: Id)
      ensures this.contexto == contexto && this.id == id
      ensures itens == [] && campoDeBusca == ""
    {
      this.contexto := contexto;
      this.id := id;
      itens := [];
      campoDeBusca := "";
    }

    /** The load effect: when the list is cached, its items become the page's items with every
        missing `comprado` set to false; otherwise the items stay as they were. */
    method CarregarItens()
      modifies this`itens
      ensures FindById(contexto.todasAsListas, id).Some? ==>
        itens == Normalize(FindById(contexto.todasAsListas, id).value.itens)
      ensures FindById(contexto.todasAsListas, id).None? ==> itens == old(itens)
    {
      var listaAtual := FindById(contexto.todasAsListas, id);
      if listaAtual.Some? {
        itens := Normalize(listaAtual.value.itens);
      }
    }

    /** `salvarAlteracoes`: set the page's items, then update the cached list's items. */
    method SalvarAlteracoes(novosItens: seq<Item>, put: (Id, ListRecord) -> Response<ListRecord>)
      modifies this`itens, contexto`todasAsListas
      ensures itens == novosItens
      ensures contexto.todasAsListas == Saved(old(contexto.todasAsListas), id, novosItens, put)
    {
      itens := novosItens;
      ghost var cached := FindById(contexto.todasAsListas, id);
      var body := contexto.AtualizarItensDaLista(id, Store(novosItens), put);
      if cached.Some? {
        MergeOverrides(cached.value, ItensPatch([]), Store(novosItens));
      }
    }

    method HandleToggleComprado(itemId: Id, put: (Id, ListRecord) -> Response<ListRecord>)
      modifies this`itens, contexto`todasAsListas
      ensures itens == ToggleComprado(old(itens), itemId)
      ensures contexto.todasAsListas == Saved(old(contexto.todasAsListas), id, itens, put)
    {
      SalvarAlteracoes(ToggleComprado(itens, itemId), put);
    }

    method HandleQuantidade(itemId: Id, quantia: int, put: (Id, ListRecord) -> Response<ListRecord>)
      modifies this`itens, contexto`todasAsListas
      ensures itens == AdjustQuantidade(old(itens), itemId, quantia)
      ensures contexto.todasAsListas == Saved(old(contexto.todasAsListas), id, itens, put)
    {
      SalvarAlteracoes(AdjustQuantidade(itens, itemId, quantia), put);
    }

    /** `handleRemoverItem`: only when the user confirms. */
    method HandleRemoverItem(itemId: Id, confirmado: bool, put: (Id, ListRecord) -> Response<ListRecord>)
      modifies this`itens, contexto`todasAsListas
      ensures confirmado ==> itens == RemoveItem(old(itens), itemId)
      ensures confirmado ==> contexto.todasAsListas == Saved(old(contexto.todasAsListas), id, itens, put)
      ensures !confirmado ==> itens == old(itens) && contexto.todasAsListas == old(contexto.todasAsListas)
    {
      if confirmado {
        SalvarAlteracoes(RemoveItem(itens, itemId), put);
      }
    }

    /** `addProdutoNaListaLocal`: refuses (and alerts) when the product is already listed;
        otherwise appends it and saves. Returns whether it was added. */
    method AddProdutoNaListaLocal(produto: Product, put: (Id, ListRecord) -> Response<ListRecord>)
      returns (adicionado: bool)
      modifies this`itens, contexto`todasAsListas
      ensures adicionado <==> !HasId(old(itens), produto.id)
      ensures itens == AddProduto(old(itens), produto)
      ensures adicionado ==> contexto.todasAsListas == Saved(old(contexto.todasAsListas), id, itens, put)
      ensures !adicionado ==> contexto.todasAsListas == old(contexto.todasAsListas)
    {
      if HasId(itens, produto.id) {
        return false;
      }
      SalvarAlteracoes(AddProduto(itens, produto), put);
      adicionado := true;
    }

    /** `handleSelecionarProdutoExistente`: the search is cleared only when the add succeeded. */
    method HandleSelecionarProdutoExistente(produto: Product, put: (Id, ListRecord) -> Response<ListRecord>)
      modifies this`itens, this`campoDeBusca, contexto`todasAsListas
      ensures itens == AddProduto(old(itens), produto)
      ensures campoDeBusca == if HasId(old(itens), produto.id) then old(campoDeBusca) else ""
      ensures !HasId(old(itens), produto.id) ==>
        contexto.todasAsListas == Saved(old(contexto.todasAsListas), id, itens, put)
      ensures HasId(old(itens), produto.id) ==> contexto.todasAsListas == old(contexto.todasAsListas)
    {
      var adicionado := AddProdutoNaListaLocal(produto, put);
      if adicionado {
        campoDeBusca := "";
      }
    }

    /** `handleCriarNovoProduto`: resolve the typed name (reuse an exact case-insensitive match,
        else create it in the catalog), then add it as `AddProdutoNaListaLocal` does. A blank
        field does nothing; a failed create alerts and changes nothing else; the field is
        cleared only when the product was added. */
    method HandleCriarNovoProduto(postProduto: string -> Response<Product>,
                                  put: (Id, ListRecord) -> Response<ListRecord>)
      returns (outcome: CreateOutcome)
      modifies this`itens, this`campoDeBusca, contexto`produtosCadastrados, contexto`todasAsListas
      ensures var res := Resolve(old(contexto.produtosCadastrados), old(campoDeBusca), postProduto);
        && contexto.produtosCadastrados ==
             old(contexto.produtosCadastrados) + (if res.Created? then [res.produto] else [])
        && (res.Blank? ==> outcome == Ignored)
        && (res.CreateFailed? ==> outcome == CreateError)
        && (res.Blank? || res.CreateFailed? ==>
              itens == old(itens) && campoDeBusca == old(campoDeBusca) &&
              contexto.todasAsListas == old(contexto.todasAsListas))
        && (res.Existing? || res.Created? ==>
              && itens == AddProduto(old(itens), res.produto)
              && (outcome == if HasId(old(itens), res.produto.id) then AlreadyInList else Added)
              && campoDeBusca == (if outcome == Added then "" else old(campoDeBusca))
              && contexto.todasAsListas ==
                   (if outcome == Added then Saved(old(contexto.todasAsListas), id, itens, put)
                    else old(contexto.todasAsListas)))
    {
      var res := ResolverProduto(contexto, campoDeBusca, postProduto);
      if res.Blank? {
        return Ignored;
      }
      if res.CreateFailed? {
        return CreateError;
      }
      var produtoParaAdicionar := res.produto;
      var adicionado := AddProdutoNaListaLocal(produtoParaAdicionar, put);
      if adicionado {
        campoDeBusca := "";
        outcome := Added;
      } else {
        outcome := AlreadyInList;
      }
    }
  }
}
