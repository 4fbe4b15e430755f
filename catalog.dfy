/** Searching the product catalog and resolving a typed name to a product, as both pages do
    before adding an item. */
module Catalog {
  import opened Text
  import opened Records
  import opened Arrays
  import opened ListasContext

  /** `p.name.toLowerCase().includes(query.toLowerCase())` */
  predicate Matches(p: Product, query: string) {
    Includes(Lower(p.name), Lower(query))
  }

  /** `pesquisar`: no query, no results; otherwise the catalog entries whose name contains
      the query case-insensitively, in catalog order. */
  function Pesquisar(catalog: seq<Product>, query: string): (r: seq<Product>)
    ensures query == "" ==> r == []
    ensures |r| <= |catalog|
    ensures forall i :: 0 <= i < |r| ==> r[i] in catalog && Matches(r[i], query)
    ensures query != "" ==> forall i :: 0 <= i < |catalog| && Matches(catalog[i], query) ==> catalog[i] in r
  {
    if query == "" then [] else Filter(catalog, (p: Product) => Matches(p, query))
  }

  /** Search results keep catalog order: searching a catalog made of two parts gives the
      results of the first part followed by those of the second. */
  lemma PesquisarKeepsOrder(a: seq<Product>, b: seq<Product>, query: string)
    ensures Pesquisar(a + b, query) == Pesquisar(a, query) + Pesquisar(b, query)
  {
    if query != "" {
      FilterAppend(a, b, (p: Product) => Matches(p, query));
    }
  }

  /** A search hit is a product whose lowercased name has the lowercased query at some offset. */
  lemma PesquisarHit(catalog: seq<Product>, query: string, p: Product)
    requires p in Pesquisar(catalog, query)
    ensures p in catalog && exists k :: WindowAt(Lower(p.name), Lower(query), k)
  {
    var i :| 0 <= i < |Pesquisar(catalog, query)| && Pesquisar(catalog, query)[i] == p;
    IncludesAt(Lower(p.name), Lower(query));
  }

  /** Every product whose name equals the query up to letter case is a hit. */
  lemma ExactNameIsHit(catalog: seq<Product>, query: string, i: nat)
    requires query != "" && i < |catalog| && Lower(catalog[i].name) == Lower(query)
    ensures catalog[i] in Pesquisar(catalog, query)
  {
    IncludesAt(Lower(catalog[i].name), Lower(query));
    assert WindowAt(Lower(catalog[i].name), Lower(query), 0);
  }

  /** `catalog.find(p => p.name.toLowerCase() === nomeBusca)`: the first entry whose lowercased
      name is `nomeBusca`. */
  function FindByName(catalog: seq<Product>, nomeBusca: string): (r: Option<Product>)
    ensures r.None? <==> forall i :: 0 <= i < |catalog| ==> Lower(catalog[i].name) != nomeBusca
    ensures r.Some? ==> Lower(r.value.name) == nomeBusca
    ensures r.Some? ==>
      exists i :: 0 <= i < |catalog| && catalog[i] == r.value &&
        forall j :: 0 <= j < i ==> Lower(catalog[j].name) != nomeBusca
  {
    if catalog == [] then None
    else if Lower(catalog[0].name) == nomeBusca then Some(catalog[0])
    else
      var r := FindByName(catalog[1..], nomeBusca);
      assert forall i :: 1 <= i < |catalog| ==> catalog[i] == catalog[1..][i - 1];
      r
  }

  /** How a typed name is turned into a product to add. */
  datatype Resolution =
    | Blank                     // only white space: nothing happens
    | Existing(produto: Product) // reused from the catalog, no create request
    | Created(produto: Product)  // created on the server
    | CreateFailed               // the create request threw

  /** `handleCriarNovoProduto` up to the point where the product is known. A blank field
      (after trimming) resolves to nothing. Otherwise the untrimmed text, lowercased, is
      looked up by exact name; only when nothing matches is `post` asked to create a
      product named exactly as typed. */
  function Resolve(catalog: seq<Product>, query: string, post: string -> Response<Product>): (r: Resolution)
    ensures r.Blank? <==> AllWhitespace(query)
    ensures r.Existing? ==> r.produto in catalog && Lower(r.produto.name) == Lower(query)
    ensures r.Existing? ==> FindByName(catalog, Lower(query)) == Some(r.produto)
    ensures r.Created? || r.CreateFailed? ==>
      forall i :: 0 <= i < |catalog| ==> Lower(catalog[i].name) != Lower(query)
    ensures r.Created? ==> post(query) == Ok(r.produto)
    ensures r.CreateFailed? ==> post(query) == Failed
    ensures !AllWhitespace(query) && (exists i :: 0 <= i < |catalog| && Lower(catalog[i].name) == Lower(query))
      ==> r.Existing?
  {
    if Trim(query) == "" then Blank
    else match FindByName(catalog, Lower(query))
      case Some(p) => Existing(p)
      case None =>
        match post(query)
        case Ok(p) => Created(p)
        case Failed => CreateFailed
  }

  /** The steps both `handleCriarNovoProduto` handlers take before adding: test the field for
      blankness, look the lowercased text up in the cached catalog, and otherwise create the
      product through the store, which appends it to the catalog on success. */
  method ResolverProduto(contexto: ListasProvider, campo: string, post: string -> Response<Product>)
    returns (res: Resolution)
    modifies contexto`produtosCadastrados
    ensures res == Resolve(old(contexto.produtosCadastrados), campo, post)
    ensures contexto.produtosCadastrados ==
      old(contexto.produtosCadastrados) + (if res.Created? then [res.produto] else [])
  {
    if Trim(campo) == "" {
      return Blank;
    }
    var nomeBusca := Lower(campo);
    var produtoExistente := FindByName(contexto.produtosCadastrados, nomeBusca);
    if produtoExistente.Some? {
      return Existing(produtoExistente.value);
    }
    var novoProdutoGlobal := contexto.AdicionarNovoProdutoGlobal(campo, post);
    if novoProdutoGlobal.None? {
      return CreateFailed;
    }
    res := Created(novoProdutoGlobal.value);
  }

  /** `resolveOrCreate("Milk")` against a catalog holding "milk" reuses that entry. */
  lemma ResolveMilk(post: string -> Response<Product>)
    ensures Resolve([Product("1", "milk")], "Milk", post) == Existing(Product("1", "milk"))
  {
    assert !AllWhitespace("Milk") by { assert !IsWhitespace("Milk"[0]); }
    var typed, stored := Lower("Milk"), Lower("milk");
    assert typed[0] == stored[0] == 'm';
    assert typed[1..] == stored[1..] == "ilk";
    assert typed == stored;
  }

  /** The blank test trims the field but the lookup does not: " milk" passes the blank test,
      misses the catalog entry "milk", and asks the server to create " milk". */
  lemma PaddedNameIsCreated(post: string -> Response<Product>)
    requires post(" milk").Ok?
    ensures Resolve([Product("1", "milk")], " milk", post) == Created(post(" milk").value)
  {
    assert !AllWhitespace(" milk") by { assert !IsWhitespace(" milk"[1]); }
    assert Lower("milk") != Lower(" milk") by {
      assert |Lower("milk")| == 4 && |Lower(" milk")| == 5;
    }
  }
}
