/**
 * The stand-alone ingestion script for the order file alone. Its order loop
 * is the same one `load_pedidos` runs, so it reuses that loop; what differs
 * is that nothing catches an exception from the loop, and that the empty
 * check carries its own message.
 */
module IngestDirect {
  import opened PyValues
  import opened IngestData

  const NoTextsDirect: string := "No hay textos para indexar " + "(verifica pedidos.json)."

  /** `main()` up to indexing: read the order file, run the order loop, and
      refuse an empty result. It refuses for lack of texts exactly when the
      file is an empty list, since every order adds its status entry. */
  method IngestDirect(file: DataFile) returns (r: Outcome<Corpus>)
    ensures PedidosEntries(file).Raised? ==> r == Raised(PedidosEntries(file).exc)
    ensures PedidosEntries(file) == Returned([]) ==> r == Raised(ValueError(NoTextsDirect))
    ensures PedidosEntries(file).Returned? && PedidosEntries(file).value != [] ==>
              r == Returned(CorpusOf(PedidosEntries(file).value))
    ensures r == Raised(ValueError(NoTextsDirect)) <==> file == Decoded(JList([]))
  {
    PedidosNeverNoTexts(file);
    EmptyOnlyWithoutOrders(file);
    var loaded := LoadPedidos(file);
    if loaded.Raised? {
      return Raised(loaded.exc);
    }
    if |loaded.value.texts| == 0 {
      return Raised(ValueError(NoTextsDirect));
    }
    r := loaded;
  }

  /** The loop yields no entry exactly when the file holds an empty list. */
  lemma EmptyOnlyWithoutOrders(file: DataFile)
    ensures PedidosEntries(file) == Returned([]) <==> file == Decoded(JList([]))
  {
    if PedidosEntries(file).Returned? {
      var items := file.value.items;
      if |items| > 0 {
        StatusPerOrder(items);
      }
    }
  }

  /** None of the exceptions the loading step raises is the empty-result
      error, so a caller can tell them apart. */
  lemma PedidosNeverNoTexts(file: DataFile)
    ensures PedidosEntries(file).Raised? ==> PedidosEntries(file).exc != ValueError(NoTextsDirect)
  {
    match file
    case Missing =>
    case Undecodable(m) =>
      assert NoTextsDirect[0] == 'N';
    case Decoded(v) =>
      if v.JList? {
        OrdersNeverValueError(v.items);
      } else {
        assert NoTextsDirect[0] == 'N';
      }
  }

  /** An order that cannot be serialised raises `AttributeError` (an order
      or a product that is not a dictionary, a customer that is not one)
      or `TypeError` (a product list that is not iterable), never a
      `ValueError`. */
  lemma OrderNeverValueError(p: Json)
    ensures OrderEntries(p).Raised? ==> OrderEntries(p).exc == AttributeError || OrderEntries(p).exc == TypeError
  {
  }

  lemma {:induction false} OrdersNeverValueError(pedidos: seq<Json>)
    ensures OrdersEntries(pedidos).Raised? ==> !OrdersEntries(pedidos).exc.ValueError?
  {
    if |pedidos| > 0 {
      OrdersNeverValueError(pedidos[..|pedidos| - 1]);
      OrderNeverValueError(pedidos[|pedidos| - 1]);
    }
  }
}
