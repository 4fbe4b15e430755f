/** The state of the new-list form (`Cadastro.jsx`): the list name, the draft items and the
    search field. Nothing reaches the server until the list is saved, except products created
    in the catalog along the way. */
module CadastroPage {
  import opened Text
  import opened Records
  import opened ItemOps
  import opened Catalog
  import opened ListasContext

  class Cadastro {
    const contexto: ListasProvider
    var nomeListaCadastrada: string
    var produtosAdicionadosNaLista: seq<Item>
    var campoDeBuscaDeProdutos: string

    constructor (contexto: ListasProvider)
      ensures this.contexto == contexto
      ensures nomeListaCadastrada == "" && produtosAdicionadosNaLista == [] && campoDeBuscaDeProdutos == ""
    {
      this.contexto := contexto;
      nomeListaCadastrada := "";
      produtosAdicionadosNaLista := [];
      campoDeBuscaDeProdutos := "";
    }

    /** `addProdutoNaListaLocal`: a product already in the draft is silently ignored; any other
        is appended with quantity 1, not purchased. */
    method AddProdutoNaListaLocal(produto: Product)
      modifies this`produtosAdicionadosNaLista
      ensures produtosAdicionadosNaLista == AddProduto(old(produtosAdicionadosNaLista), produto)
    {
      produtosAdicionadosNaLista := AddProduto(produtosAdicionadosNaLista, produto);
    }

    /** `qtd`: the `-`/`+` buttons of a draft item. */
    method Qtd(produtoId: Id, quantia: int)
      modifies this`produtosAdicionadosNaLista
      ensures produtosAdicionadosNaLista == AdjustQuantidade(old(produtosAdicionadosNaLista), produtoId, quantia)
    {
      produtosAdicionadosNaLista := AdjustQuantidade(produtosAdicionadosNaLista, produtoId, quantia);
    }

    /** `removerProduto`: no confirmation on this page. */
    method RemoverProduto(produtoId: Id)
      modifies this`produtosAdicionadosNaLista
      ensures produtosAdicionadosNaLista == RemoveItem(old(produtosAdicionadosNaLista), produtoId)
    {
      produtosAdicionadosNaLista := RemoveItem(produtosAdicionadosNaLista, produtoId);
    }

    /** `salvarLista`: a name that is blank after trimming alerts and submits nothing; otherwise
        the name as typed (not trimmed) and the draft are posted through the store. Returns the
        body submitted. */
    method SalvarLista(post: NewList -> Response<ListRecord>) returns (enviada: Option<NewList>)
      modifies contexto`todasAsListas
      ensures enviada.None? <==> AllWhitespace(nomeListaCadastrada)
      ensures enviada.Some? ==> enviada.value == NewList(nomeListaCadastrada, Store(produtosAdicionadosNaLista))
      ensures enviada.Some? && post(enviada.value).Ok? ==>
        contexto.todasAsListas == old(contexto.todasAsListas) + [post(enviada.value).value]
      ensures enviada.None? || post(enviada.value).Failed? ==>
        contexto.todasAsListas == old(contexto.todasAsListas)
    {
      if Trim(nomeListaCadastrada) == "" {
        return None;
      }
      var novaListaData := NewList(nomeListaCadastrada, Store(produtosAdicionadosNaLista));
      contexto.AdicionarNovaLista(novaListaData, post);
      enviada := Some(novaListaData);
    }

    /** `handleSelecionarProdutoExistente`: the search is cleared even when the product was
        already in the draft and nothing was added. */
    method HandleSelecionarProdutoExistente(produto: Product)
      modifies this`produtosAdicionadosNaLista, this`campoDeBuscaDeProdutos
      ensures produtosAdicionadosNaLista == AddProduto(old(produtosAdicionadosNaLista), produto)
      ensures campoDeBuscaDeProdutos == ""
    {
      AddProdutoNaListaLocal(produto);
      campoDeBuscaDeProdutos := "";
    }

    /** `handleCriarNovoProduto`: a blank field returns at once, without clearing it. Otherwise
        the typed name is resolved as on the list page; a resolved product is added to the
        draft, a failed create adds nothing, and either way the field is cleared. */
    method HandleCriarNovoProduto(postProduto: string -> Response<Product>)
      modifies this`produtosAdicionadosNaLista, this`campoDeBuscaDeProdutos, contexto`produtosCadastrados
      ensures var res := Resolve(old(contexto.produtosCadastrados), old(campoDeBuscaDeProdutos), postProduto);
        && contexto.produtosCadastrados ==
             old(contexto.produtosCadastrados) + (if res.Created? then [res.produto] else [])
        && produtosAdicionadosNaLista ==
             (if res.Existing? || res.Created? then AddProduto(old(produtosAdicionadosNaLista), res.produto)
              else old(produtosAdicionadosNaLista))
        && campoDeBuscaDeProdutos == (if res.Blank? then old(campoDeBuscaDeProdutos) else "")
    {
      var res := ResolverProduto(contexto, campoDeBuscaDeProdutos, postProduto);
      if res.Blank? {
        return;
      }
      if res.Existing? || res.Created? {
        AddProdutoNaListaLocal(res.produto);
      }
      campoDeBuscaDeProdutos := "";
    }
  }
}
