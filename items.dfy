/** The item transforms of one shopping list. `Lista.jsx` applies all of them to the items of a
    saved list. `Cadastro.jsx` applies adjust, remove and add to the draft of a new list: its adjust
    and remove are the same expressions, and its add spreads the whole product where `Lista.jsx`
    builds the four fields, which has the same effect on the modelled fields. */
module ItemOps {
  import opened Records
  import opened Arrays

  /** `itens.some(item => item.id === id)` */
  predicate HasId(itens: seq<Item>, id: Id) {
    exists i :: 0 <= i < |itens| && itens[i].id == id
  }

  /** No two items of a list share an id: a catalog product appears in a list at most once. */
  predicate UniqueIds(itens: seq<Item>) {
    forall i, j :: 0 <= i < j < |itens| ==> itens[i].id != itens[j].id
  }

  /** Every quantity is at least 1. */
  predicate AllPositive(itens: seq<Item>) {
    forall i :: 0 <= i < |itens| ==> itens[i].quantidade >= 1
  }

  // ---------------------------------------------------------------------------------------
  // Toggle purchased

  /** `itens.map(item => item.id === id ? {...item, comprado: !item.comprado} : item)` */
  function ToggleComprado(itens: seq<Item>, id: Id): (r: seq<Item>)
    ensures |r| == |itens|
    ensures forall i :: 0 <= i < |r| ==>
      r[i].id == itens[i].id && r[i].name == itens[i].name && r[i].quantidade == itens[i].quantidade
    ensures forall i :: 0 <= i < |r| ==> (r[i].comprado != itens[i].comprado <==> itens[i].id == id)
  {
    seq(|itens|, i requires 0 <= i < |itens| =>
      if itens[i].id == id then itens[i].(comprado := !itens[i].comprado) else itens[i])
  }

  /** Toggling the same item twice restores the list. */
  lemma ToggleTwice(itens: seq<Item>, id: Id)
    ensures ToggleComprado(ToggleComprado(itens, id), id) == itens
  {
    var r := ToggleComprado(ToggleComprado(itens, id), id);
    assert forall i :: 0 <= i < |itens| ==> r[i] == itens[i];
  }

  /** Toggling an id that is not in the list changes nothing. */
  lemma ToggleAbsent(itens: seq<Item>, id: Id)
    requires !HasId(itens, id)
    ensures ToggleComprado(itens, id) == itens
  {
    var r := ToggleComprado(itens, id);
    assert forall i :: 0 <= i < |itens| ==> r[i] == itens[i];
  }

  /** Toggling keeps the ids unique and the quantities positive. */
  lemma ToggleKeepsInvariants(itens: seq<Item>, id: Id)
    requires UniqueIds(itens) && AllPositive(itens)
    ensures UniqueIds(ToggleComprado(itens, id)) && AllPositive(ToggleComprado(itens, id))
  {
  }

  // ---------------------------------------------------------------------------------------
  // Adjust quantity

  /** `itens.map(item => item.id === id ? {...item, quantidade: Math.max(1, item.quantidade + delta)} : item)` */
  function AdjustQuantidade(itens: seq<Item>, id: Id, delta: int): (r: seq<Item>)
    ensures |r| == |itens|
    ensures forall i :: 0 <= i < |r| && itens[i].id != id ==> r[i] == itens[i]
    ensures forall i :: 0 <= i < |r| && itens[i].id == id ==>
      && r[i] == itens[i].(quantidade := r[i].quantidade)
      && r[i].quantidade >= 1
      && r[i].quantidade >= itens[i].quantidade + delta
      && (r[i].quantidade == 1 || r[i].quantidade == itens[i].quantidade + delta)
  {
    seq(|itens|, i requires 0 <= i < |itens| =>
      if itens[i].id == id then
        var q := itens[i].quantidade + delta;
        itens[i].(quantidade := if q < 1 then 1 else q)
      else itens[i])
  }

  /** The list after a run of `+`/`-` clicks on the item `id`, one delta per click. */
  function AdjustRepeatedly(itens: seq<Item>, id: Id, deltas: seq<int>): seq<Item>
    decreases |deltas|
  {
    if deltas == [] then itens
    else AdjustRepeatedly(AdjustQuantidade(itens, id, deltas[0]), id, deltas[1..])
  }

  /** However many clicks, and however negative their sum, no quantity drops below 1;
      the ids stay unique and the other items are untouched. */
  lemma {:induction false} AdjustRepeatedlyKeepsInvariants(itens: seq<Item>, id: Id, deltas: seq<int>)
    requires UniqueIds(itens) && AllPositive(itens)
    ensures var r := AdjustRepeatedly(itens, id, deltas);
      && UniqueIds(r) && AllPositive(r) && |r| == |itens|
      && forall i :: 0 <= i < |r| && itens[i].id != id ==> r[i] == itens[i]
    decreases |deltas|
  {
    if deltas != [] {
      var next := AdjustQuantidade(itens, id, deltas[0]);
      assert UniqueIds(next);
      AdjustRepeatedlyKeepsInvariants(next, id, deltas[1..]);
    }
  }

  // ---------------------------------------------------------------------------------------
  // Remove

  /** `itens.filter(item => item.id !== id)` */
  function RemoveItem(itens: seq<Item>, id: Id): (r: seq<Item>)
    ensures !HasId(r, id)
    ensures forall i :: 0 <= i < |r| ==> r[i] in itens
    ensures forall i :: 0 <= i < |itens| && itens[i].id != id ==> itens[i] in r
    ensures |r| == |itens| <==> !HasId(itens, id)
  {
    Filter(itens, (it: Item) => it.id != id)
  }

  /** Removing keeps the others in their order: it distributes over concatenation. */
  lemma RemoveKeepsOrder(a: seq<Item>, b: seq<Item>, id: Id)
    ensures RemoveItem(a + b, id) == RemoveItem(a, id) + RemoveItem(b, id)
  {
    FilterAppend(a, b, (it: Item) => it.id != id);
  }

  /** Removing an id that is absent changes nothing. */
  lemma RemoveAbsent(itens: seq<Item>, id: Id)
    requires !HasId(itens, id)
    ensures RemoveItem(itens, id) == itens
  {
    FilterAllKept(itens, (it: Item) => it.id != id);
  }

  /** Removing twice is removing once. */
  lemma RemoveTwice(itens: seq<Item>, id: Id)
    ensures RemoveItem(RemoveItem(itens, id), id) == RemoveItem(itens, id)
  {
    RemoveAbsent(RemoveItem(itens, id), id);
  }

  /** Putting an item in front of items with other ids keeps the ids unique. */
  lemma ConsUnique(h: Item, rest: seq<Item>)
    requires UniqueIds(rest) && !HasId(rest, h.id)
    ensures UniqueIds([h] + rest)
  {
    var s := [h] + rest;
    forall i, j | 0 <= i < j < |s|
      ensures s[i].id != s[j].id
    {
      assert s[j] == rest[j - 1];
      if i > 0 { assert s[i] == rest[i - 1]; }
    }
  }

  /** Removing keeps the ids unique and the quantities positive. */
  lemma {:induction false} RemoveKeepsInvariants(itens: seq<Item>, id: Id)
    requires UniqueIds(itens) && AllPositive(itens)
    ensures UniqueIds(RemoveItem(itens, id)) && AllPositive(RemoveItem(itens, id))
  {
    if itens != [] {
      var h, tail := itens[0], itens[1..];
      assert forall i :: 0 <= i < |tail| ==> tail[i] == itens[i + 1];
      RemoveKeepsInvariants(tail, id);
      var rest := RemoveItem(tail, id);
      assert RemoveItem(itens, id) == (if h.id != id then [h] else []) + rest;
      if h.id != id {
        assert !HasId(rest, h.id) by {
          forall j | 0 <= j < |rest|
            ensures rest[j].id != h.id
          {
            var k :| 0 <= k < |tail| && tail[k] == rest[j];
          }
        }
        ConsUnique(h, rest);
      }
    }
  }

  // ---------------------------------------------------------------------------------------
  // Add a catalog product

  /** The entry a product gets when it is added to a list. */
  function NewItem(p: Product): Item {
    Item(p.id, p.name, 1, false)
  }

  /** `addProdutoNaListaLocal`: a product whose id is already in the list is refused;
      any other is appended at the end with quantity 1, not purchased. */
  function AddProduto(itens: seq<Item>, p: Product): (r: seq<Item>)
    ensures HasId(r, p.id)
    ensures |r| == if HasId(itens, p.id) then |itens| else |itens| + 1
    ensures r[..|itens|] == itens
    ensures |r| > |itens| ==> r[|itens|] == Item(p.id, p.name, 1, false)
  {
    if HasId(itens, p.id) then itens
    else
      var r := itens + [NewItem(p)];
      assert r[|itens|].id == p.id;
      r
  }

  /** Adding keeps the ids unique and the quantities positive. */
  lemma AddKeepsInvariants(itens: seq<Item>, p: Product)
    requires UniqueIds(itens) && AllPositive(itens)
    ensures UniqueIds(AddProduto(itens, p)) && AllPositive(AddProduto(itens, p))
  {
    var r := AddProduto(itens, p);
    if |r| > |itens| {
      forall i | 0 <= i < |itens| ensures r[i] == itens[i] && itens[i].id != p.id {
        assert r[i] == r[..|itens|][i];
      }
    }
  }

  /** Adding the same product again is refused: a second add changes nothing. */
  lemma AddTwice(itens: seq<Item>, p: Product)
    ensures AddProduto(AddProduto(itens, p), p) == AddProduto(itens, p)
  {
  }

  // ---------------------------------------------------------------------------------------
  // Loading from the server, saving back, and the two views of the list page

  /** `item.comprado || false`: a missing `comprado` becomes `false`. */
  function NormalizeItem(s: StoredItem): Item {
    Item(s.id, s.name, s.quantidade, s.comprado == Some(true))
  }

  /** `listaAtual.itens.map(item => ({...item, comprado: item.comprado || false}))` */
  function Normalize(stored: seq<StoredItem>): (r: seq<Item>)
    ensures |r| == |stored|
    ensures forall i :: 0 <= i < |r| ==>
      r[i].id == stored[i].id && r[i].name == stored[i].name && r[i].quantidade == stored[i].quantidade
    ensures forall i :: 0 <= i < |r| ==>
      (stored[i].comprado.Some? ==> r[i].comprado == stored[i].comprado.value)
    ensures forall i :: 0 <= i < |r| ==> (stored[i].comprado.None? ==> !r[i].comprado)
  {
    seq(|stored|, i requires 0 <= i < |stored| => NormalizeItem(stored[i]))
  }

  /** The items as they are sent to the server, every `comprado` present. */
  function Store(itens: seq<Item>): (r: seq<StoredItem>)
    ensures |r| == |itens|
    ensures forall i :: 0 <= i < |r| ==> r[i].comprado.Some?
  {
    seq(|itens|, i requires 0 <= i < |itens| =>
      StoredItem(itens[i].id, itens[i].name, itens[i].quantidade, Some(itens[i].comprado)))
  }

  /** Items sent to the server and loaded back are the items that were sent. */
  lemma NormalizeStore(itens: seq<Item>)
    ensures Normalize(Store(itens)) == itens
  {
    var r := Normalize(Store(itens));
    assert forall i :: 0 <= i < |itens| ==> r[i] == itens[i];
  }

  predicate Bought(it: Item) {
    it.comprado
  }

  predicate ToBuy(it: Item) {
    !it.comprado
  }

  /** `itens.filter(item => !item.comprado)`, the "Itens" section. */
  function ParaComprar(itens: seq<Item>): (r: seq<Item>)
    ensures forall i :: 0 <= i < |r| ==> r[i] in itens && !r[i].comprado
    ensures forall i :: 0 <= i < |itens| && !itens[i].comprado ==> itens[i] in r
  {
    Filter(itens, ToBuy)
  }

  /** `itens.filter(item => item.comprado)`, the "Comprados" section. */
  function Comprados(itens: seq<Item>): (r: seq<Item>)
    ensures forall i :: 0 <= i < |r| ==> r[i] in itens && r[i].comprado
    ensures forall i :: 0 <= i < |itens| && itens[i].comprado ==> itens[i] in r
  {
    Filter(itens, Bought)
  }

  /** Every item shows in exactly one of the two sections, and each section keeps list order. */
  lemma ViewsPartition(itens: seq<Item>, more: seq<Item>)
    ensures |ParaComprar(itens)| + |Comprados(itens)| == |itens|
    ensures ParaComprar(itens + more) == ParaComprar(itens) + ParaComprar(more)
    ensures Comprados(itens + more) == Comprados(itens) + Comprados(more)
  {
    FilterComplement(itens, ToBuy, Bought);
    FilterAppend(itens, more, ToBuy);
    FilterAppend(itens, more, Bought);
  }
}
