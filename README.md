# Shopping lists: a Dafny model of the list and catalog state layer

This project models the state layer of a browser shopping-list app written in React. Users create
named lists, fill them with products from a shared catalog, change quantities and tick items off.
The app keeps two caches in a context provider (`ListasContext.jsx`):

- `todasAsListas`, the lists;
- `produtosCadastrados`, the product catalog.

Every change is mirrored to a JSON server. The model covers four parts:

- **Item operations** (`items.dfy`, module `ItemOps`). These are toggle purchased, adjust quantity,
  remove, and add-unless-present. `Lista.jsx` has all four. `Cadastro.jsx` has no toggle and
  shares adjust and remove as the same expressions; its add spreads the whole product where
  `Lista.jsx` builds the four fields, which has the same effect on the modelled fields, and drops
  a duplicate silently where `Lista.jsx` alerts. The module also holds the load normalisation and
  the to-buy/bought views of `Lista.jsx`.
  The proved properties: ids stay unique, quantities stay at least 1, a toggle undoes
  itself, and a remove is idempotent and keeps order.
- **Catalog search and resolve-or-create** (`catalog.dfy`, module `Catalog`). Search is a
  case-insensitive substring filter. Resolution reuses an exact case-insensitive name match and
  asks the server to create a product only when nothing matches.
- **The store** (`listas_context.dfy`, class `ListasContext.ListasProvider`). It has two `seq`
  fields. Lists are appended on create, filtered out on delete, and replaced by the server's echo
  on update. An update sends the whole cached record with the given fields spread over it. An
  unknown id sends nothing and changes nothing.
- **The pages and the card.** `lista_page.dfy` (class `ListaPage.Lista`) and `cadastro_page.dfy`
  (class `CadastroPage.Cadastro`) hold the page state, which the handlers update step by step.
  `card_lista.dfy` holds the rename and delete decisions of a list card.

Helpers:

- `text.dfy`: the JavaScript string built-ins the code relies on (`toLowerCase`, `includes`,
  `trim`).
- `arrays.dfy`: `Array.prototype.filter`.
- `records.dfy`: the records.

Each server round-trip is a parameter. It is a function from the request (its body, and the id in
the URL) to `Ok(parsed body)` or `Failed`. `Failed` means that `fetch` or `response.json()` threw (for a DELETE, which is not parsed, only `fetch`).
The code never looks at the HTTP status, so an error status whose body parses counts as `Ok`.
`window.confirm` is a `bool` input and `window.prompt` an `Option<string>` input. The alerts a
handler shows are outcome values.

## Model

| member | source | states |
|---|---|---|
| `Text.Lower` | src/pages/Lista.jsx:74 | lowercasing keeps the length, leaves no upper-case ASCII letter and changes no other character |
| `Text.LowerOfUpper` | src/pages/Lista.jsx:74 | each ASCII upper-case letter becomes its lower-case letter, 32 code points above it |
| `Text.LowerIdempotent` | src/pages/Lista.jsx:109-113 | lowercasing an already lowered name changes nothing, so the comparison against the lowered query is case-insensitive |
| `Text.IncludesAt` | src/pages/Lista.jsx:74 | the contract of `Text.Includes`, stated as a lemma: `includes` holds exactly when the needle occurs at some offset of the haystack |
| `Text.TrimStart` | src/pages/Lista.jsx:107 | the result is a suffix of the input, preceded only by white space, not starting with white space; it is empty exactly when the input is all white space |
| `Text.TrimEnd` | src/pages/Lista.jsx:107 | the result is a prefix of the input, followed only by white space, not ending with white space |
| `Text.Trim` | src/pages/Lista.jsx:107 | the result is empty exactly when the input is all white space, and otherwise starts and ends with non-white space |
| `Text.TrimIsSlice` | src/components/CardLista.jsx:32-33 | the trimmed result is a slice of the input with only white space before and after it, so `trim` removes white space at the ends and nothing else |
| `Text.TrimIdempotent` | src/components/CardLista.jsx:32-33 | trimming a trimmed string changes nothing |
| `Arrays.Filter` | src/pages/Lista.jsx:73-75 | the result keeps only elements of the input that pass the predicate, keeps every one that passes, and is as long as the input exactly when all pass |
| `Arrays.FilterAppend` | src/pages/Lista.jsx:73-75 | filtering preserves order: it distributes over concatenation |
| `Arrays.FilterAllKept` | src/pages/Lista.jsx:63 | a filter every element passes returns the input unchanged |
| `Arrays.FilterIdempotent` | src/pages/Cadastro.jsx:50 | filtering twice with the same predicate equals filtering once |
| `Arrays.FilterComplement` | src/pages/Lista.jsx:147-148 | the parts kept by a predicate and by its negation add up to the input's length |
| `ItemOps.ToggleComprado` | src/pages/Lista.jsx:47-52 | length, order, ids, names and quantities are kept; `comprado` flips on exactly the items with the given id |
| `ItemOps.ToggleTwice` | src/pages/Lista.jsx:47-52 | toggling the same id twice restores the original items |
| `ItemOps.ToggleAbsent` | src/pages/Lista.jsx:47-52 | toggling an id not in the list changes nothing |
| `ItemOps.ToggleKeepsInvariants` | src/pages/Lista.jsx:47-52 | toggling keeps ids unique and quantities at least 1 |
| `ItemOps.AdjustQuantidade` | src/pages/Lista.jsx:54-59 | the matching item's quantity becomes max(1, quantity + delta), so it is at least 1 for any delta, and its other fields are kept; every other item is unchanged |
| `ItemOps.AdjustRepeatedlyKeepsInvariants` | src/pages/Lista.jsx:54-59 | after any sequence of `+`/`-` clicks, whatever their sum, ids are unique, all quantities are at least 1, the length is kept and other items are untouched |
| `ItemOps.RemoveItem` | src/pages/Lista.jsx:61-66 | no item with the id remains; every other item remains; nothing new appears; the length is kept exactly when the id was absent |
| `ItemOps.RemoveKeepsOrder` | src/pages/Lista.jsx:63 | removing distributes over concatenation, so the remaining items keep their order |
| `ItemOps.RemoveAbsent` | src/pages/Lista.jsx:63 | removing an absent id returns the list unchanged |
| `ItemOps.RemoveTwice` | src/pages/Cadastro.jsx:49-51 | removing the same id twice equals removing it once |
| `ItemOps.RemoveKeepsInvariants` | src/pages/Lista.jsx:63 | removing keeps ids unique and quantities at least 1 |
| `ItemOps.AddProduto` | src/pages/Lista.jsx:80-96 | afterwards the product id is listed; the old items are an unchanged prefix; exactly one entry `{id, name, 1, false}` is appended when the id was absent, none otherwise |
| `ItemOps.AddKeepsInvariants` | src/pages/Cadastro.jsx:33-41 | adding keeps ids unique and quantities at least 1 |
| `ItemOps.AddTwice` | src/pages/Cadastro.jsx:35-39 | adding the same product a second time changes nothing |
| `ItemOps.Normalize` | src/pages/Lista.jsx:31-34 | loading keeps length, ids, names and quantities, keeps a present `comprado` and sets a missing one to false |
| `ItemOps.Store` | src/pages/Lista.jsx:42 | the items sent to the server all carry `comprado`, one per page item |
| `ItemOps.NormalizeStore` | src/pages/Lista.jsx:31-42 | items sent to the server and loaded back are the items sent |
| `ItemOps.ParaComprar` | src/pages/Lista.jsx:147 | the to-buy view holds exactly the unpurchased items |
| `ItemOps.Comprados` | src/pages/Lista.jsx:148 | the bought view holds exactly the purchased items |
| `ItemOps.ViewsPartition` | src/pages/Lista.jsx:147-148 | the two views' lengths add up to the item count, and each view keeps list order |
| `Catalog.Pesquisar` | src/pages/Lista.jsx:71-76 | an empty query gives no results; otherwise the results are exactly the catalog entries whose lowercased name contains the lowercased query |
| `Catalog.PesquisarKeepsOrder` | src/pages/Cadastro.jsx:22-29 | search results keep catalog order (search distributes over concatenation) |
| `Catalog.PesquisarHit` | src/pages/Cadastro.jsx:24-25 | every hit is a catalog entry with the lowered query at some offset of its lowered name |
| `Catalog.ExactNameIsHit` | src/pages/Lista.jsx:71-76 | a product whose name equals a non-empty query up to letter case is always among the results |
| `Catalog.FindByName` | src/pages/Lista.jsx:113 | finds nothing exactly when no lowered name equals the key; otherwise returns the first entry whose lowered name equals it |
| `Catalog.Resolve` | src/pages/Lista.jsx:106-125 | blank exactly when the field is all white space; an exact case-insensitive match is always reused, and it is the first such catalog entry, as `find` returns; a create is asked for only when nothing matches, and its result or failure is passed on |
| `Catalog.ResolverProduto` | src/pages/Lista.jsx:106-125 | both pages' lookup-or-create step returns exactly what `Resolve` says for the catalog before the call, and the catalog grows by the created product and nothing else |
| `Catalog.ResolveMilk` | src/pages/Cadastro.jsx:78-85 | "Milk" against a catalog holding "milk" reuses that entry, whatever the server would answer |
| `Catalog.PaddedNameIsCreated` | src/pages/Cadastro.jsx:76-88 | " milk" is not blank, misses "milk" because the lookup does not trim, and is sent to be created |
| `ListasContext.FindById` | src/context/ListasContext.jsx:56 | finds nothing exactly when no cached list has the id; otherwise returns the first one that has it |
| `ListasContext.RemoveById` | src/context/ListasContext.jsx:49 | no list with the id remains, every other list remains, nothing new appears |
| `ListasContext.RemoveByIdKeepsOrder` | src/context/ListasContext.jsx:49 | deleting keeps the other lists in their order |
| `ListasContext.RemoveByIdAbsent` | src/context/ListasContext.jsx:49 | deleting an id that is not cached changes nothing |
| `ListasContext.ReplaceById` | src/context/ListasContext.jsx:68-70 | same length; entries with the id become the server's echo and all others are unchanged |
| `ListasContext.ReplaceByIdAbsent` | src/context/ListasContext.jsx:94-98 | replacing an id that is not cached changes nothing |
| `ListasContext.ReplaceThenFind` | src/context/ListasContext.jsx:68-70 | when the echo keeps the id and the id is cached, looking the id up after a replace returns the echo, and lookups of other ids are unaffected |
| `ListasContext.FindUnaffected` | src/context/ListasContext.jsx:94-98 | a replacement at one id by an echo that keeps that id is invisible to a lookup of any other id |
| `ListasContext.Merge` | src/context/ListasContext.jsx:83 | a field present in the patch overrides the cached one, and a field absent from it keeps its cached value |
| `ListasContext.MergeOverrides` | src/context/ListasContext.jsx:59 | an item update changes only `itens`; patching twice equals patching once; an empty patch is the identity |
| `ListasContext.UpdateRequest` | src/context/ListasContext.jsx:79-83 | no request exactly when the id is not cached; otherwise the body is the first cached record with that id, as `find` returns, with the patch spread over it |
| `ListasContext.AfterUpdate` | src/context/ListasContext.jsx:85-101 | length and all entries with other ids are kept; no request or a thrown request leaves the cache as it was; a success puts the echo at every entry with the id |
| `ListasContext.UpdateAbsent` | src/context/ListasContext.jsx:79-80 | an update of an id that is not cached sends nothing and changes nothing |
| `ListasContext.ListasProvider.constructor` | src/context/ListasContext.jsx:8-9 | both caches start empty |
| `ListasContext.ListasProvider.FetchData` | src/context/ListasContext.jsx:11-30 | both collections are set to the fetched data when every step succeeded; otherwise both stay as they were |
| `ListasContext.ListasProvider.AdicionarNovaLista` | src/context/ListasContext.jsx:32-44 | a success appends the server's record after the unchanged earlier lists; a failure leaves the cache unchanged |
| `ListasContext.ListasProvider.ExcluirLista` | src/context/ListasContext.jsx:46-53 | a success removes every list with the id and keeps the others in order; a failure leaves the cache unchanged |
| `ListasContext.ListasProvider.EditarLista` | src/context/ListasContext.jsx:77-102 | returns the body sent: none for an unknown id, otherwise the cached record with the patch spread over it; the cache afterwards is as `AfterUpdate` says |
| `ListasContext.ListasProvider.AtualizarItensDaLista` | src/context/ListasContext.jsx:55-74 | no request for an unknown id; otherwise the body is the cached record with only `itens` replaced; a success replaces the entry by the echo |
| `ListasContext.ListasProvider.AdicionarNovoProdutoGlobal` | src/context/ListasContext.jsx:105-120 | a success appends the created product to the catalog and returns it; a failure returns null and leaves the catalog unchanged |
| `ListaPage.Lista.constructor` | src/pages/Lista.jsx:22-25 | the page starts with no items and an empty search field |
| `ListaPage.Lista.CarregarItens` | src/pages/Lista.jsx:28-37 | when the route's list is cached, the page items are its normalised items; otherwise they are unchanged |
| `ListaPage.Lista.SalvarAlteracoes` | src/pages/Lista.jsx:40-43 | the page items become the new items, and the cached list gets them through a whole-record update |
| `ListaPage.Lista.HandleToggleComprado` | src/pages/Lista.jsx:47-52 | the page items are toggled at the id and saved |
| `ListaPage.Lista.HandleQuantidade` | src/pages/Lista.jsx:54-59 | the page items are adjusted at the id and saved |
| `ListaPage.Lista.HandleRemoverItem` | src/pages/Lista.jsx:61-66 | when confirmed, the items without the id are saved; when not, neither the page nor the cache changes |
| `ListaPage.Lista.AddProdutoNaListaLocal` | src/pages/Lista.jsx:80-96 | returns false and changes nothing for a listed id; otherwise appends the new entry, saves it and returns true |
| `ListaPage.Lista.HandleSelecionarProdutoExistente` | src/pages/Lista.jsx:99-103 | the search field is cleared exactly when the product was added |
| `ListaPage.Lista.HandleCriarNovoProduto` | src/pages/Lista.jsx:106-131 | a blank field does nothing; a match is reused with no create; a failed create alerts and changes nothing else; otherwise the product is added as by `AddProdutoNaListaLocal`, and the field is cleared only if it was added |
| `CadastroPage.Cadastro.constructor` | src/pages/Cadastro.jsx:16-18 | the form starts with an empty name, an empty draft and an empty search |
| `CadastroPage.Cadastro.AddProdutoNaListaLocal` | src/pages/Cadastro.jsx:33-41 | a listed id leaves the draft unchanged; any other product is appended with quantity 1, not purchased |
| `CadastroPage.Cadastro.Qtd` | src/pages/Cadastro.jsx:43-47 | the matching draft entry's quantity becomes max(1, q + delta); other entries are unchanged |
| `CadastroPage.Cadastro.RemoverProduto` | src/pages/Cadastro.jsx:49-51 | the draft keeps exactly the entries with another id, in order |
| `CadastroPage.Cadastro.SalvarLista` | src/pages/Cadastro.jsx:53-64 | a name blank after trimming submits nothing; otherwise it submits the name as typed, untrimmed, with the current draft, and the store appends the server's record on success |
| `CadastroPage.Cadastro.HandleSelecionarProdutoExistente` | src/pages/Cadastro.jsx:69-72 | the search is cleared even when the product was already in the draft |
| `CadastroPage.Cadastro.HandleCriarNovoProduto` | src/pages/Cadastro.jsx:75-99 | a blank field returns without clearing it; a match means no create; a failed create adds nothing; on every non-blank path the field ends up cleared |
| `CardLista.BotaoEditar` | src/components/CardLista.jsx:25-39 | `onEditar(id, {nome: trimmed})` is called exactly when the prompt returned text that is not blank and whose trimmed form differs from the current name; a cancelled or blank entry alerts; a same-name entry does neither |
| `CardLista.RenameIsClean` | src/components/CardLista.jsx:32-33 | a rename sends a non-empty, already trimmed name different from the current one, and the PUT body is the cached record with only the name changed |
| `CardLista.BotaoExcluir` | src/components/CardLista.jsx:18-23 | `onExcluir(lista.id)` is called exactly when the user confirms |

## Left out

- Rendering, CSS classes, navigation (`navigate`), the header menu (`Header.jsx`), the home page's empty-state branch (`Home.jsx`) and the route table (`Path.jsx`). None of these hold list state.
- HTTP, JSON parsing and the endpoint URLs. Each round-trip is a function from request to `Response`. The model does not capture that the same request may get different answers at different times.
- `console.error` logging on failures. Alerts are outcome values (`CreateOutcome`, `EditDecision`, `None` from `SalvarLista`), not side effects.
- Async interleaving. Each store operation and each handler runs as one atomic step. `atualizarItensDaLista` and `editarLista` read the `todasAsListas` snapshot captured when they were called, so two overlapping updates race and the last response wins; this race is not modelled. The same goes for `salvarAlteracoes` and `salvarLista` not awaiting the store.
- `useEffect`/`useMemo` scheduling. `CarregarItens` is the load effect, but the model does not say when React re-runs it. Search is a function of the field and the catalog.
- `Text.Lower`: only ASCII letters are lowercased. JavaScript's `toLowerCase` is Unicode-aware.
- JavaScript number semantics for `quantidade`: quantities are unbounded integers. A missing or non-numeric quantity (`undefined + 1` is `NaN`) is not modelled.
- The list page looks its list up by `l.id.toString() === id`. Ids are strings here, so this is plain equality; numeric ids from the server are not distinguished.
- Records carry only the fields the code reads or writes (`id`, `nome`, `itens`; `id`, `name`). Extra JSON fields that object spreads would carry along are not modelled. For the same reason, `ListPatch` has only those three fields.
- The list page's handlers dereference `listaAtual.id`. They are rendered only while the list is cached, so the model uses the page's route id. The page's crash when the list vanishes between render and click is not modelled.
- A successful POST or PUT is modelled by its parsed body. An error status whose body parses counts as success, as in the code. A DELETE response is never parsed, so its `Response<()>` is `Ok` exactly when `fetch` did not throw, whatever the status. A failure shows no alert in the store: the store only logs.
