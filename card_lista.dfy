/** The rename and delete buttons of a list card (`CardLista.jsx`). `window.prompt` and
    `window.confirm` are inputs; the result says which callback is invoked, or which alert shows. */
module CardLista {
  import opened Text
  import opened Records
  import opened ListasContext

  /** What the rename button leads to. */
  datatype EditDecision =
    | CallEditar(id: Id, dados: ListPatch)  // `onEditar(lista.id, {nome: trimmed})`
    | AlertEmpty                            // "O nome não pode ficar vazio."
    | NoChange                              // same name after trimming: nothing happens

  /** `botaoEditar` given what the prompt returned (`None` when it was cancelled). */
  function BotaoEditar(lista: ListRecord, novoNome: Option<string>): (d: EditDecision)
    ensures d.CallEditar? <==>
      novoNome.Some? && !AllWhitespace(novoNome.value) && Trim(novoNome.value) != lista.nome
    ensures d.CallEditar? ==>
      d.id == lista.id && d.dados == ListPatch(None, Some(Trim(novoNome.value)), None)
    ensures d.AlertEmpty? <==> novoNome.None? || AllWhitespace(novoNome.value)
  {
    match novoNome
    case None => AlertEmpty
    case Some(s) =>
      if s != "" && Trim(s) != "" && Trim(s) != lista.nome then
        CallEditar(lista.id, ListPatch(None, Some(Trim(s)), None))
      else if Trim(s) == "" then AlertEmpty
      else NoChange
  }

  /** A rename sends a name that is non-empty, already trimmed and different from the current
      one, and the request the store then PUTs is the cached record with only its name changed. */
  lemma RenameIsClean(lista: ListRecord, novoNome: Option<string>, listas: seq<ListRecord>)
    requires BotaoEditar(lista, novoNome).CallEditar?
    ensures var d := BotaoEditar(lista, novoNome);
      && d.dados.nome.Some?
      && d.dados.nome.value != "" && d.dados.nome.value != lista.nome
      && Trim(d.dados.nome.value) == d.dados.nome.value
      && (FindById(listas, d.id) == Some(lista) ==>
            UpdateRequest(listas, d.id, d.dados) == Some(lista.(nome := d.dados.nome.value)))
  {
    TrimIdempotent(novoNome.value);
  }

  /** `botaoExcluir`: `onExcluir(lista.id)` exactly when the user confirms. */
  function BotaoExcluir(lista: ListRecord, confirmado: bool): (excluir: Option<Id>)
    ensures excluir.Some? <==> confirmado
    ensures excluir.Some? ==> excluir.value == lista.id
  {
    if confirmado then Some(lista.id) else None
  }
}
