/**
 * The ingestion step that turns the order file, the FAQ file and the return
 * policy PDF into the parallel lists of texts and metadata the vector index
 * is built from. Reading and decoding the files is left to the caller: a
 * data file arrives as `DataFile`, and the PDF chunks as a finished list of
 * entries (or the exception their loader raised).
 */
module IngestData {
  import opened PyValues

  /** The metadata dictionary stored beside each text. Constant keys
      (`source`, `type`, the perishable policy's `categoria` and `policy`,
      the PDF's `doc_version` and `valid_from`) follow from the variant. */
  datatype Meta =
    | OrderStatusMeta(trackingNumber: string, estado: string, destino: string,
                      transportadora: string, fechaEstimada: string)
    | ProductInfoMeta(trackingNumber: string, producto: string, categoria: string, devAceptada: bool)
    | PerishablePolicyMeta(trackingNumber: string)
    | FaqMeta(faqCategoria: Json, id: Json)
    | PdfChunkMeta(page: Json, chunkId: nat)
  {
    /** The `source` key. */
    function Source(): string {
      match this
      case OrderStatusMeta(_, _, _, _, _) => "pedidos.json"
      case ProductInfoMeta(_, _, _, _) => "pedidos.json"
      case PerishablePolicyMeta(_) => "policies"
      case FaqMeta(_, _) => "faqs.json"
      case PdfChunkMeta(_, _) => "politicas_devolucion.pdf"
    }
  }

  /** One indexed document: a text and its metadata. */
  datatype Entry = Entry(text: string, meta: Meta)

  /** The two lists ingestion grows side by side. */
  datatype Corpus = Corpus(texts: seq<string>, metas: seq<Meta>)

  /** A data file as the loader finds it on disk. */
  datatype DataFile = Missing | Undecodable(message: string) | Decoded(value: Json)

  const EmptyCorpus: Corpus := Corpus([], [])

  /** The texts of the entries, in order. */
  function Texts(es: seq<Entry>): (r: seq<string>)
    ensures |r| == |es| && forall k :: 0 <= k < |es| ==> r[k] == es[k].text
  {
    seq(|es|, k requires 0 <= k < |es| => es[k].text)
  }

  /** The metadata of the entries, in order. */
  function Metas(es: seq<Entry>): (r: seq<Meta>)
    ensures |r| == |es| && forall k :: 0 <= k < |es| ==> r[k] == es[k].meta
  {
    seq(|es|, k requires 0 <= k < |es| => es[k].meta)
  }

  /** `texts.append(e.text); metas.append(e.meta)` for every entry, in order. */
  function Extend(c: Corpus, es: seq<Entry>): Corpus {
    Corpus(c.texts + Texts(es), c.metas + Metas(es))
  }

  /** The corpus holding exactly the given entries. */
  function CorpusOf(es: seq<Entry>): Corpus {
    Extend(EmptyCorpus, es)
  }

  /** The texts and metadata of a concatenation are the concatenations. */
  lemma EntriesAppend(a: seq<Entry>, b: seq<Entry>)
    ensures Texts(a + b) == Texts(a) + Texts(b) && Metas(a + b) == Metas(a) + Metas(b)
  {
  }

  /** Appending entries in two batches is appending them in one. */
  lemma ExtendTwice(c: Corpus, a: seq<Entry>, b: seq<Entry>)
    ensures Extend(Extend(c, a), b) == Extend(c, a + b)
  {
    EntriesAppend(a, b);
    assert c.texts + Texts(a) + Texts(b) == c.texts + (Texts(a) + Texts(b));
    assert c.metas + Metas(a) + Metas(b) == c.metas + (Metas(a) + Metas(b));
  }

  /** Appending one entry appends its text and its metadata. */
  lemma ExtendOne(c: Corpus, e: Entry)
    ensures Extend(c, [e]) == Corpus(c.texts + [e.text], c.metas + [e.meta])
  {
    assert [e][..0] == [];
  }

  // ---------------------------------------------------------------------
  // One order

  /** The order fields the serialiser reads, each the first truthy value
      among its Spanish key and English alternatives. */
  datatype OrderView = OrderView(tracking: Json, estado: Json, destino: Json, transportadora: Json, fechaEstimada: Json)

  /** `p.get("destino") or (p.get("customer") or {}).get("city")`: the city
      is read only when `destino` is falsy, and a truthy customer that is
      not a dictionary raises. */
  function Destino(fs: seq<(string, Json)>): Outcome<Json> {
    if Truthy(Get(fs, "destino")) then Returned(Get(fs, "destino"))
    else
      var customer :- Fields(Or(Get(fs, "customer"), JObject([])));
      Returned(Get(customer, "city"))
  }

  function ReadOrder(fs: seq<(string, Json)>): Outcome<OrderView> {
    var destino :- Destino(fs);
    Returned(OrderView(
      tracking := Or(Or(Get(fs, "tracking_number"), Get(fs, "tracking")), Get(fs, "order_id")),
      estado := Or(Get(fs, "estado"), Get(fs, "status")),
      destino := destino,
      transportadora := Or(Get(fs, "transportadora"), Get(fs, "carrier")),
      fechaEstimada := Or(Get(fs, "fecha_estimada"), Get(fs, "estimated_delivery"))))
  }

  /** Reading an order fails only on a truthy `customer` that is not a
      dictionary, consulted when `destino` is falsy; each field is the first
      truthy value among its Spanish key and its English alternatives, the
      last alternative when none is truthy. */
  lemma ReadOrderFallbacks(fs: seq<(string, Json)>)
    ensures ReadOrder(fs).Raised? <==>
              !Truthy(Get(fs, "destino")) && Truthy(Get(fs, "customer")) && !Get(fs, "customer").JObject?
    ensures var r := ReadOrder(fs);
            r.Returned? ==>
              && (Truthy(r.value.tracking) <==>
                    Truthy(Get(fs, "tracking_number")) || Truthy(Get(fs, "tracking")) || Truthy(Get(fs, "order_id")))
              && (Truthy(Get(fs, "tracking_number")) ==> r.value.tracking == Get(fs, "tracking_number"))
              && (!Truthy(Get(fs, "tracking_number")) && Truthy(Get(fs, "tracking")) ==> r.value.tracking == Get(fs, "tracking"))
              && (!Truthy(Get(fs, "tracking_number")) && !Truthy(Get(fs, "tracking")) ==> r.value.tracking == Get(fs, "order_id"))
              && (Truthy(Get(fs, "estado")) ==> r.value.estado == Get(fs, "estado"))
              && (!Truthy(Get(fs, "estado")) ==> r.value.estado == Get(fs, "status"))
              && (Truthy(Get(fs, "destino")) ==> r.value.destino == Get(fs, "destino"))
              && (!Truthy(Get(fs, "destino")) && Truthy(Get(fs, "customer")) ==>
                    r.value.destino == Get(Get(fs, "customer").fields, "city"))
              && (!Truthy(Get(fs, "destino")) && !Truthy(Get(fs, "customer")) ==> r.value.destino == JNull)
              && (Truthy(Get(fs, "transportadora")) ==> r.value.transportadora == Get(fs, "transportadora"))
              && (!Truthy(Get(fs, "transportadora")) ==> r.value.transportadora == Get(fs, "carrier"))
              && (Truthy(Get(fs, "fecha_estimada")) ==> r.value.fechaEstimada == Get(fs, "fecha_estimada"))
              && (!Truthy(Get(fs, "fecha_estimada")) ==> r.value.fechaEstimada == Get(fs, "estimated_delivery"))
  {
  }

  /** The order description before `.strip()`: the fixed head, then each
      optional segment only when its value is truthy, then ".". */
  function OrderDescription(o: OrderView): string {
    "Pedido " + S(o.tracking) + ": " + S(o.estado)
    + (if Truthy(o.destino) then " con destino " + S(o.destino) else "")
    + (if Truthy(o.transportadora) then " vía " + S(o.transportadora) else "")
    + (if Truthy(o.fechaEstimada) then ". Fecha estimada: " + S(o.fechaEstimada) else "")
    + "."
  }

  /** The indexed order text, `desc_basica`, after `.strip()`. */
  function OrderText(o: OrderView): string {
    Strip(OrderDescription(o))
  }

  /** The `.strip()` never changes an order description: it starts with
      "Pedido " and ends with ".". */
  lemma OrderTextUnstripped(o: OrderView)
    ensures OrderText(o) == OrderDescription(o)
    ensures OrderText(o)[..7] == "Pedido " && OrderText(o)[|OrderText(o)| - 1] == '.'
  {
    var d := OrderDescription(o);
    assert d[0] == 'P' && d[|d| - 1] == '.';
    StripNoSpace(d);
  }

  /** With no destination, carrier or estimated date, the text is just the
      tracking number and the status. */
  lemma OrderTextBare(o: OrderView)
    requires !Truthy(o.destino) && !Truthy(o.transportadora) && !Truthy(o.fechaEstimada)
    ensures OrderText(o) == "Pedido " + S(o.tracking) + ": " + S(o.estado) + "."
  {
    OrderTextUnstripped(o);
  }

  function StatusEntry(o: OrderView): Entry {
    Entry(OrderText(o), OrderStatusMeta(S(o.tracking), S(o.estado), S(o.destino), S(o.transportadora), S(o.fechaEstimada)))
  }

  /** `p.get("productos", p.get("items", [])) or []` */
  function ProductsOf(fs: seq<(string, Json)>): Json {
    Or(GetOr(fs, "productos", GetOr(fs, "items", JList([]))), JList([]))
  }

  function Nombre(pf: seq<(string, Json)>): Json { Or(Get(pf, "nombre"), Get(pf, "name")) }

  function Categoria(pf: seq<(string, Json)>): Json { Or(Get(pf, "categoria"), Get(pf, "category")) }

  /** `prod.get("dev_aceptada", prod.get("returnable", False))` */
  function DevAceptada(pf: seq<(string, Json)>): Json {
    GetOr(pf, "dev_aceptada", GetOr(pf, "returnable", JBool(false)))
  }

  function ProductText(nombre: string, categoria: string, acepta: bool): string {
    "Producto: " + nombre + " (categoría: " + categoria + "). Este producto "
    + (if acepta then AcceptsReturns else "NO " + AcceptsReturns)
  }

  const AcceptsReturns: string := "acepta devoluciones."

  /** The entry of one product dictionary: its text is built from exactly
      the name, category and return flag its metadata records, and that
      flag is the truthiness of `dev_aceptada`. */
  function ProductEntry(tracking: Json, pf: seq<(string, Json)>): (e: Entry)
    ensures e.meta.ProductInfoMeta?
    ensures e.meta.trackingNumber == S(tracking)
    ensures e.meta.producto == S(Nombre(pf)) && e.meta.categoria == S(Categoria(pf))
    ensures e.meta.devAceptada == Truthy(DevAceptada(pf))
    ensures e.text == ProductText(e.meta.producto, e.meta.categoria, e.meta.devAceptada)
  {
    var nombre, categoria, dev := Nombre(pf), Categoria(pf), DevAceptada(pf);
    Entry(ProductText(S(nombre), S(categoria), Truthy(dev)),
          ProductInfoMeta(S(tracking), S(nombre), S(categoria), Truthy(dev)))
  }

  predicate EndsWith(t: string, suffix: string) {
    |suffix| <= |t| && t[|t| - |suffix|..] == suffix
  }

  /** A product text opens with the product's name and closes by saying
      whether returns are accepted: it ends in "NO acepta devoluciones."
      exactly when they are not. */
  lemma ProductTextStatesFlag(nombre: string, categoria: string, acepta: bool)
    ensures var t := ProductText(nombre, categoria, acepta);
            && t[..10] == "Producto: " && t[10..10 + |nombre|] == nombre
            && EndsWith(t, AcceptsReturns)
            && (EndsWith(t, "NO " + AcceptsReturns) <==> !acepta)
  {
    var t := ProductText(nombre, categoria, acepta);
    Slices("Producto: ", nombre, t[10 + |nombre|..]);
    var prefix := "Producto: " + nombre + " (categoría: " + categoria + "). Este producto ";
    if acepta {
      ProductTextAccepts(prefix);
    } else {
      assert t == prefix + "NO " + AcceptsReturns;
      EndsWithJoin(prefix, "NO " + AcceptsReturns);
      EndsWithJoin(prefix + "NO ", AcceptsReturns);
    }
  }

  /** A text that accepts returns has "producto" rather than "NO" before
      the closing words. */
  lemma ProductTextAccepts(prefix: string)
    requires EndsWith(prefix, "). Este producto ")
    ensures EndsWith(prefix + AcceptsReturns, AcceptsReturns)
    ensures !EndsWith(prefix + AcceptsReturns, "NO " + AcceptsReturns)
  {
    EndsWithJoin(prefix, AcceptsReturns);
    var t := prefix + AcceptsReturns;
    assert prefix[|prefix| - 3] == "). Este producto "[14];
    assert t[|t| - 23] == prefix[|prefix| - 3];
  }

  lemma EndsWithJoin(p: string, v: string)
    ensures EndsWith(p + v, v)
  {
    assert (p + v)[|p|..] == v;
  }

  /** Whether a product accepts returns: `dev_aceptada` when present,
      otherwise `returnable`, otherwise false. */
  lemma DevAceptadaFallback(pf: seq<(string, Json)>)
    ensures Find(pf, "dev_aceptada").Some? ==> DevAceptada(pf) == Find(pf, "dev_aceptada").value
    ensures Find(pf, "dev_aceptada").None? && Find(pf, "returnable").Some? ==> DevAceptada(pf) == Find(pf, "returnable").value
    ensures Find(pf, "dev_aceptada").None? && Find(pf, "returnable").None? ==> !Truthy(DevAceptada(pf))
  {
  }

  /** The inner `for prod in ...` loop: one entry per product, in order;
      the first product that is not a dictionary has no `get` and raises. */
  function ProductEntries(tracking: Json, prods: seq<Json>): (r: Outcome<seq<Entry>>)
    ensures r.Returned? ==> |r.value| == |prods|
    ensures r.Returned? ==> forall k :: 0 <= k < |prods| ==> prods[k].JObject? && r.value[k] == ProductEntry(tracking, prods[k].fields)
  {
    if forall k :: 0 <= k < |prods| ==> prods[k].JObject? then
      Returned(seq(|prods|, k requires 0 <= k < |prods| => ProductEntry(tracking, prods[k].fields)))
    else
      Raised(AttributeError)
  }

  const PerishableCategory: string := "Alimento perecedero"

  const PerishablePolicyText: string :=
    "Política especial: Los alimentos perecederos NO pueden ser devueltos por razones de seguridad alimentaria."

  /** `any((prod.get("categoria") or prod.get("category")) == "Alimento perecedero" ...)` */
  predicate HasPerishable(prods: seq<Json>) {
    exists k :: 0 <= k < |prods| && prods[k].JObject? && Categoria(prods[k].fields) == JStr(PerishableCategory)
  }

  /** The entries one order contributes: its status, one per product, and
      the perishable-food policy when one of its products is perishable. */
  function OrderEntries(p: Json): Outcome<seq<Entry>> {
    var fs :- Fields(p);
    var o :- ReadOrder(fs);
    var prods :- Iterate(ProductsOf(fs));
    var products :- ProductEntries(o.tracking, prods);
    Returned(Assemble(o, prods, products))
  }

  /** An order's entries once its products are read: status, products,
      then the perishable policy when one is due. */
  function Assemble(o: OrderView, prods: seq<Json>, products: seq<Entry>): seq<Entry> {
    [StatusEntry(o)] + products
    + (if HasPerishable(prods) then [Entry(PerishablePolicyText, PerishablePolicyMeta(S(o.tracking)))] else [])
  }

  lemma AssembleShape(o: OrderView, prods: seq<Json>, products: seq<Entry>)
    requires |products| == |prods|
    requires forall k :: 0 <= k < |products| ==> products[k].meta.ProductInfoMeta?
    ensures var es := Assemble(o, prods, products);
            var extra := if HasPerishable(prods) then 1 else 0;
            && |es| == 1 + |prods| + extra
            && es[0] == StatusEntry(o)
            && (forall k :: 1 <= k <= |prods| ==> es[k] == products[k - 1])
            && (HasPerishable(prods) <==> es[|es| - 1].meta.PerishablePolicyMeta?)
            && (HasPerishable(prods) ==> es[|es| - 1].text == PerishablePolicyText)
  {
    var es := Assemble(o, prods, products);
    if !HasPerishable(prods) && |prods| > 0 {
      assert es[|es| - 1] == products[|prods| - 1];
    }
  }

  /** Each order contributes, in this order, exactly one status entry, one
      product entry per product, and one perishable-policy entry exactly
      when some product's category is "Alimento perecedero". */
  lemma OrderEntriesShape(p: Json)
    requires OrderEntries(p).Returned?
    ensures p.JObject? && Iterate(ProductsOf(p.fields)).Returned?
    ensures var es := OrderEntries(p).value;
            var prods := Iterate(ProductsOf(p.fields)).value;
            var extra := if HasPerishable(prods) then 1 else 0;
            && |es| == 1 + |prods| + extra
            && es[0].meta.OrderStatusMeta?
            && es[0].text == OrderText(ReadOrder(p.fields).value)
            && (forall k :: 1 <= k <= |prods| ==> es[k].meta.ProductInfoMeta?)
            && (HasPerishable(prods) <==> es[|es| - 1].meta.PerishablePolicyMeta?)
            && (HasPerishable(prods) ==> es[|es| - 1].text == PerishablePolicyText)
  {
    var o := ReadOrder(p.fields).value;
    var prods := Iterate(ProductsOf(p.fields)).value;
    OrderEntriesSteps(p, o, prods);
    AssembleShape(o, prods, ProductEntries(o.tracking, prods).value);
  }

  // ---------------------------------------------------------------------
  // load_pedidos

  /** The loop body over orders, shared by both ingestion scripts: append
      the order's status entry, then (inner loop) one entry per product,
      then the perishable policy if any product is perishable. An order
      that is not a dictionary, a non-iterable product list or a product
      that is not a dictionary raises. */
  method AppendOrder(c: Corpus, p: Json) returns (r: Outcome<Corpus>)
    ensures OrderEntries(p).Raised? ==> r == Raised(OrderEntries(p).exc)
    ensures OrderEntries(p).Returned? ==> r == Returned(Extend(c, OrderEntries(p).value))
  {
    var fs :- Fields(p);
    var o :- ReadOrder(fs);
    var status := StatusEntry(o);
    var withStatus := Corpus(c.texts + [status.text], c.metas + [status.meta]);
    var prods :- Iterate(ProductsOf(fs));
    OrderEntriesSteps(p, o, prods);
    var withProducts :- AppendProducts(withStatus, o.tracking, prods);
    ghost var done := ProductEntries(o.tracking, prods).value;
    ExtendOne(c, status);
    ExtendTwice(c, [status], done);
    var texts, metas := withProducts.texts, withProducts.metas;
    if HasPerishable(prods) {
      var policy := Entry(PerishablePolicyText, PerishablePolicyMeta(S(o.tracking)));
      texts := texts + [policy.text];
      metas := metas + [policy.meta];
      ExtendOne(withProducts, policy);
      ExtendTwice(c, [status] + done, [policy]);
    } else {
      assert [status] + done + [] == [status] + done;
    }
    r := Returned(Corpus(texts, metas));
  }

  /** The inner `for prod in ...` loop: append each product's entry, stopping
      at the first product that is not a dictionary. */
  method AppendProducts(c: Corpus, tracking: Json, prods: seq<Json>) returns (r: Outcome<Corpus>)
    ensures ProductEntries(tracking, prods).Raised? ==> r == Raised(ProductEntries(tracking, prods).exc)
    ensures ProductEntries(tracking, prods).Returned? ==> r == Returned(Extend(c, ProductEntries(tracking, prods).value))
  {
    var texts, metas := c.texts, c.metas;
    ghost var done: seq<Entry> := [];
    var i := 0;
    while i < |prods|
      invariant i <= |prods|
      invariant forall k :: 0 <= k < i ==> prods[k].JObject?
      invariant |done| == i && forall k :: 0 <= k < i ==> done[k] == ProductEntry(tracking, prods[k].fields)
      invariant texts == c.texts + Texts(done) && metas == c.metas + Metas(done)
    {
      var read := Fields(prods[i]);
      if read.Raised? {
        assert !prods[i].JObject? && ProductEntries(tracking, prods).Raised?;
        return Raised(read.exc);
      }
      var product := ProductEntry(tracking, read.value);
      texts := texts + [product.text];
      metas := metas + [product.meta];
      EntriesAppend(done, [product]);
      done := done + [product];
      i := i + 1;
    }
    assert ProductEntries(tracking, prods).value == done;
    r := Returned(Corpus(texts, metas));
  }

  /** `OrderEntries` taken apart at the steps the loop body performs. */
  lemma OrderEntriesSteps(p: Json, o: OrderView, prods: seq<Json>)
    requires Fields(p).Returned? && ReadOrder(p.fields) == Returned(o)
    requires Iterate(ProductsOf(p.fields)) == Returned(prods)
    ensures ProductEntries(o.tracking, prods).Raised? ==>
              OrderEntries(p) == Raised(ProductEntries(o.tracking, prods).exc)
    ensures ProductEntries(o.tracking, prods).Returned? ==>
              OrderEntries(p) == Returned(Assemble(o, prods, ProductEntries(o.tracking, prods).value))
  {
  }

  /** The outer `for p in pedidos` loop: each order's entries in turn,
      stopping at the first order that raises. */
  function OrdersEntries(pedidos: seq<Json>): Outcome<seq<Entry>> {
    if |pedidos| == 0 then Returned([])
    else
      var init :- OrdersEntries(pedidos[..|pedidos| - 1]);
      var last :- OrderEntries(pedidos[|pedidos| - 1]);
      Returned(init + last)
  }

  /** A completed order loop is the loop over all but the last order, then
      the last order's entries. */
  lemma OrdersEntriesStep(pedidos: seq<Json>)
    requires |pedidos| > 0 && OrdersEntries(pedidos).Returned?
    ensures OrdersEntries(pedidos[..|pedidos| - 1]).Returned?
    ensures OrderEntries(pedidos[|pedidos| - 1]).Returned?
    ensures OrdersEntries(pedidos).value
            == OrdersEntries(pedidos[..|pedidos| - 1]).value + OrderEntries(pedidos[|pedidos| - 1]).value
  {
  }

  /** An exception raised on a prefix of the orders is the loop's. */
  lemma {:induction false} OrdersPrefixRaised(pedidos: seq<Json>, k: nat)
    requires k <= |pedidos| && OrdersEntries(pedidos[..k]).Raised?
    ensures OrdersEntries(pedidos) == OrdersEntries(pedidos[..k])
    decreases |pedidos|
  {
    if k < |pedidos| {
      var init := pedidos[..|pedidos| - 1];
      assert init[..k] == pedidos[..k];
      OrdersPrefixRaised(init, k);
    } else {
      assert pedidos[..k] == pedidos;
    }
  }

  // ---------------------------------------------------------------------
  // Counting order status entries

  /** The number of `order_status` entries. */
  function StatusCount(es: seq<Entry>): nat {
    if |es| == 0 then 0
    else StatusCount(es[..|es| - 1]) + (if es[|es| - 1].meta.OrderStatusMeta? then 1 else 0)
  }

  lemma {:induction false} StatusCountAppend(a: seq<Entry>, b: seq<Entry>)
    ensures StatusCount(a + b) == StatusCount(a) + StatusCount(b)
    decreases |b|
  {
    if |b| > 0 {
      var n := |b| - 1;
      assert (a + b)[..|a + b| - 1] == a + b[..n];
      assert (a + b)[|a + b| - 1] == b[n];
      StatusCountAppend(a, b[..n]);
    } else {
      assert a + b == a;
    }
  }

  lemma {:induction false} NoStatus(es: seq<Entry>)
    requires forall k :: 0 <= k < |es| ==> !es[k].meta.OrderStatusMeta?
    ensures StatusCount(es) == 0
  {
    if |es| > 0 {
      NoStatus(es[..|es| - 1]);
    }
  }

  /** Exactly one of an order's entries is its status entry. */
  lemma OneStatusPerOrder(p: Json)
    requires OrderEntries(p).Returned?
    ensures StatusCount(OrderEntries(p).value) == 1 && |OrderEntries(p).value| >= 1
  {
    var o := ReadOrder(p.fields).value;
    var prods := Iterate(ProductsOf(p.fields)).value;
    var products := ProductEntries(o.tracking, prods).value;
    OrderEntriesSteps(p, o, prods);
    AssembleShape(o, prods, products);
    OneStatusFirst(Assemble(o, prods, products));
  }

  /** A list whose first entry, and no other, is a status entry counts one. */
  lemma OneStatusFirst(es: seq<Entry>)
    requires |es| >= 1 && es[0].meta.OrderStatusMeta?
    requires forall k :: 1 <= k < |es| ==> !es[k].meta.OrderStatusMeta?
    ensures StatusCount(es) == 1
  {
    NoStatus(es[1..]);
    StatusCountAppend([es[0]], es[1..]);
    assert [es[0]] + es[1..] == es;
    assert StatusCount([es[0]]) == 1 by { assert [es[0]][..0] == []; }
  }

  /** A completed order loop holds one status entry per order, so at least
      as many entries as orders. */
  lemma {:induction false} StatusPerOrder(pedidos: seq<Json>)
    requires OrdersEntries(pedidos).Returned?
    ensures StatusCount(OrdersEntries(pedidos).value) == |pedidos|
    ensures |OrdersEntries(pedidos).value| >= |pedidos|
  {
    if |pedidos| > 0 {
      var n := |pedidos| - 1;
      OrdersEntriesStep(pedidos);
      StatusPerOrder(pedidos[..n]);
      OneStatusPerOrder(pedidos[n]);
      StatusCountAppend(OrdersEntries(pedidos[..n]).value, OrderEntries(pedidos[n]).value);
    }
  }

  // ---------------------------------------------------------------------
  // load_pedidos

  const NotAnOrderList: string := "pedidos.json debe ser una lista de pedidos"

  /** The entries `load_pedidos` builds from the order file, or the
      exception it raises. */
  function PedidosEntries(file: DataFile): Outcome<seq<Entry>> {
    match file
    case Missing => Raised(FileNotFoundError)
    case Undecodable(m) => Raised(ValueError("pedidos.json inválido: " + m))
    case Decoded(v) => if v.JList? then OrdersEntries(v.items) else Raised(ValueError(NotAnOrderList))
  }

  /** The corpus of a list of entries, or the same exception. */
  function AsCorpus(o: Outcome<seq<Entry>>): (r: Outcome<Corpus>)
    ensures r.Returned? ==> |r.value.texts| == |r.value.metas|
  {
    match o
    case Raised(e) => Raised(e)
    case Returned(es) => Returned(CorpusOf(es))
  }

  /** `load_pedidos()`: check the file, then run the order loop. */
  method LoadPedidos(file: DataFile) returns (r: Outcome<Corpus>)
    ensures r == AsCorpus(PedidosEntries(file))
    ensures r.Returned? ==> |r.value.texts| == |r.value.metas|
  {
    match file
    case Missing => return Raised(FileNotFoundError);
    case Undecodable(m) => return Raised(ValueError("pedidos.json inválido: " + m));
    case Decoded(v) =>
      if !v.JList? {
        return Raised(ValueError(NotAnOrderList));
      }
      var pedidos := v.items;
      var c := EmptyCorpus;
      var i := 0;
      while i < |pedidos|
        invariant i <= |pedidos|
        invariant OrdersEntries(pedidos[..i]).Returned?
        invariant c == CorpusOf(OrdersEntries(pedidos[..i]).value)
      {
        ghost var before := OrdersEntries(pedidos[..i]).value;
        assert pedidos[..i + 1][..i] == pedidos[..i];
        var next := AppendOrder(c, pedidos[i]);
        if next.Raised? {
          OrdersPrefixRaised(pedidos, i + 1);
          return Raised(next.exc);
        }
        ExtendTwice(EmptyCorpus, before, OrderEntries(pedidos[i]).value);
        c := next.value;
        i := i + 1;
      }
      assert pedidos[..i] == pedidos;
      r := Returned(c);
  }

  // ---------------------------------------------------------------------
  // load_faqs

  const NotAFaqList: string := "faqs.json debe ser una lista de FAQs"

  /** `faq.get("pregunta") or faq.get("question") or ""` */
  function Question(fs: seq<(string, Json)>): Json {
    Or(Or(Get(fs, "pregunta"), Get(fs, "question")), JStr(""))
  }

  /** `faq.get("respuesta") or faq.get("answer") or ""` */
  function Answer(fs: seq<(string, Json)>): Json {
    Or(Or(Get(fs, "respuesta"), Get(fs, "answer")), JStr(""))
  }

  /** `faq.get("categoria") or faq.get("category") or "General"` */
  function FaqCategory(fs: seq<(string, Json)>): Json {
    Or(Or(Get(fs, "categoria"), Get(fs, "category")), JStr("General"))
  }

  /** Each FAQ field is read under its Spanish key when that value is
      truthy, otherwise under its English key when that one is, otherwise
      a default: empty for the question and the answer, "General" for the
      category. */
  lemma FaqFallbacks(fs: seq<(string, Json)>)
    ensures Truthy(Get(fs, "pregunta")) ==> Question(fs) == Get(fs, "pregunta")
    ensures !Truthy(Get(fs, "pregunta")) && Truthy(Get(fs, "question")) ==> Question(fs) == Get(fs, "question")
    ensures !Truthy(Get(fs, "pregunta")) && !Truthy(Get(fs, "question")) ==> Question(fs) == JStr("")
    ensures Truthy(Get(fs, "respuesta")) ==> Answer(fs) == Get(fs, "respuesta")
    ensures !Truthy(Get(fs, "respuesta")) && Truthy(Get(fs, "answer")) ==> Answer(fs) == Get(fs, "answer")
    ensures !Truthy(Get(fs, "respuesta")) && !Truthy(Get(fs, "answer")) ==> Answer(fs) == JStr("")
    ensures Truthy(Get(fs, "categoria")) ==> FaqCategory(fs) == Get(fs, "categoria")
    ensures !Truthy(Get(fs, "categoria")) && Truthy(Get(fs, "category")) ==> FaqCategory(fs) == Get(fs, "category")
    ensures !Truthy(Get(fs, "categoria")) && !Truthy(Get(fs, "category")) ==> FaqCategory(fs) == JStr("General")
  {
  }

  function FaqText(pregunta: Json, respuesta: Json): string {
    "Pregunta frecuente: " + PyStr(pregunta) + "\nRespuesta: " + PyStr(respuesta)
  }

  /** A FAQ that will be indexed: a dictionary with a question and an
      answer under either spelling. */
  predicate Answered(faq: Json) {
    faq.JObject? && Truthy(Question(faq.fields)) && Truthy(Answer(faq.fields))
  }

  /** The entries one FAQ contributes: none when its question or its
      answer is missing or empty, otherwise one whose category is never
      empty. */
  function FaqEntry(faq: Json): (r: Outcome<seq<Entry>>)
    ensures r.Returned? <==> faq.JObject?
    ensures r.Returned? ==> (r.value != [] <==> Answered(faq)) && |r.value| <= 1
    ensures r.Returned? && r.value != [] ==>
              && r.value[0].meta == FaqMeta(FaqCategory(faq.fields), Get(faq.fields, "id"))
              && Truthy(r.value[0].meta.faqCategoria)
              && r.value[0].text == FaqText(Question(faq.fields), Answer(faq.fields))
  {
    var fs :- Fields(faq);
    var pregunta, respuesta := Question(fs), Answer(fs);
    if !Truthy(pregunta) || !Truthy(respuesta) then Returned([])
    else Returned([Entry(FaqText(pregunta, respuesta), FaqMeta(FaqCategory(fs), Get(fs, "id")))])
  }

  /** The `for faq in faqs` loop. */
  function FaqListEntries(faqs: seq<Json>): Outcome<seq<Entry>> {
    if |faqs| == 0 then Returned([])
    else
      var init :- FaqListEntries(faqs[..|faqs| - 1]);
      var last :- FaqEntry(faqs[|faqs| - 1]);
      Returned(init + last)
  }

  /** An exception raised on a prefix of the FAQs is the loop's. */
  lemma {:induction false} FaqsPrefixRaised(faqs: seq<Json>, k: nat)
    requires k <= |faqs| && FaqListEntries(faqs[..k]).Raised?
    ensures FaqListEntries(faqs) == FaqListEntries(faqs[..k])
    decreases |faqs|
  {
    if k < |faqs| {
      var init := faqs[..|faqs| - 1];
      assert init[..k] == faqs[..k];
      FaqsPrefixRaised(init, k);
    } else {
      assert faqs[..k] == faqs;
    }
  }

  /** The entries `load_faqs` builds from the FAQ file; a missing file
      contributes nothing. */
  function FaqsEntries(file: DataFile): Outcome<seq<Entry>> {
    match file
    case Missing => Returned([])
    case Undecodable(m) => Raised(ValueError("faqs.json inválido: " + m))
    case Decoded(v) => if v.JList? then FaqListEntries(v.items) else Raised(ValueError(NotAFaqList))
  }

  /** `load_faqs()`: check the file, then index each answered FAQ, skipping
      the others. */
  method LoadFaqs(file: DataFile) returns (r: Outcome<Corpus>)
    ensures r == AsCorpus(FaqsEntries(file))
    ensures r.Returned? ==> |r.value.texts| == |r.value.metas|
  {
    match file
    case Missing => return Returned(EmptyCorpus);
    case Undecodable(m) => return Raised(ValueError("faqs.json inválido: " + m));
    case Decoded(v) =>
      if !v.JList? {
        return Raised(ValueError(NotAFaqList));
      }
      var faqs := v.items;
      var texts: seq<string> := [];
      var metas: seq<Meta> := [];
      var i := 0;
      while i < |faqs|
        invariant i <= |faqs|
        invariant FaqListEntries(faqs[..i]).Returned?
        invariant Corpus(texts, metas) == CorpusOf(FaqListEntries(faqs[..i]).value)
      {
        ghost var before := FaqListEntries(faqs[..i]).value;
        assert faqs[..i + 1][..i] == faqs[..i];
        var read := Fields(faqs[i]);
        if read.Raised? {
          FaqsPrefixRaised(faqs, i + 1);
          return Raised(read.exc);
        }
        var fs := read.value;
        var pregunta, respuesta := Question(fs), Answer(fs);
        var categoria, fid := FaqCategory(fs), Get(fs, "id");
        if !Truthy(pregunta) || !Truthy(respuesta) {
          assert before + [] == before;
          i := i + 1;
          continue;
        }
        var faq := Entry(FaqText(pregunta, respuesta), FaqMeta(categoria, fid));
        texts := texts + [faq.text];
        metas := metas + [faq.meta];
        ExtendOne(CorpusOf(before), faq);
        ExtendTwice(EmptyCorpus, before, [faq]);
        i := i + 1;
      }
      assert faqs[..i] == faqs;
      r := Returned(Corpus(texts, metas));
  }

  /** The number of FAQs in a list that will be indexed. */
  function AnsweredCount(faqs: seq<Json>): nat {
    if |faqs| == 0 then 0 else AnsweredCount(faqs[..|faqs| - 1]) + (if Answered(faqs[|faqs| - 1]) then 1 else 0)
  }

  /** A list of FAQ dictionaries yields one entry per answered FAQ, and
      none for the rest. */
  lemma {:induction false} FaqsKept(faqs: seq<Json>)
    requires forall k :: 0 <= k < |faqs| ==> faqs[k].JObject?
    ensures FaqListEntries(faqs).Returned?
    ensures |FaqListEntries(faqs).value| == AnsweredCount(faqs)
  {
    if |faqs| > 0 {
      var n := |faqs| - 1;
      FaqsKept(faqs[..n]);
      assert FaqEntry(faqs[n]).Returned?;
    }
  }

  // ---------------------------------------------------------------------
  // main

  const NoTexts: string := "No hay textos para indexar. Verifica tus archivos de datos."

  /** What a loader adds to the combined lists: its entries, or nothing
      when it raised (the error is reported and ingestion goes on). */
  function Contribution(o: Outcome<seq<Entry>>): seq<Entry> {
    if o.Returned? then o.value else []
  }

  /** Orders first, then FAQs, then the PDF chunks. */
  function Gathered(pedidos: DataFile, faqs: DataFile, pdf: Outcome<seq<Entry>>): seq<Entry> {
    Contribution(PedidosEntries(pedidos)) + Contribution(FaqsEntries(faqs)) + Contribution(pdf)
  }

  /** `main()` up to indexing: gather the three sources, skipping any that
      raised, and refuse an empty result. */
  method IngestAll(pedidos: DataFile, faqs: DataFile, pdf: Outcome<seq<Entry>>) returns (r: Outcome<Corpus>)
    ensures Gathered(pedidos, faqs, pdf) == [] ==> r == Raised(ValueError(NoTexts))
    ensures Gathered(pedidos, faqs, pdf) != [] ==> r == Returned(CorpusOf(Gathered(pedidos, faqs, pdf)))
  {
    ghost var a, b, c := Contribution(PedidosEntries(pedidos)), Contribution(FaqsEntries(faqs)), Contribution(pdf);
    var fromPedidos := LoadPedidos(pedidos);
    AsCorpusContribution(PedidosEntries(pedidos));
    var all := ExtendIfLoaded(EmptyCorpus, fromPedidos);
    var fromFaqs := LoadFaqs(faqs);
    AsCorpusContribution(FaqsEntries(faqs));
    assert all == CorpusOf(a) by {
      assert [] + Texts(a) == Texts(a) && [] + Metas(a) == Metas(a);
    }
    all := ExtendIfLoaded(all, fromFaqs);
    assert all == Extend(CorpusOf(a), b);
    ExtendTwice(EmptyCorpus, a, b);
    var fromPdf := AsCorpus(pdf);
    AsCorpusContribution(pdf);
    all := ExtendIfLoaded(all, fromPdf);
    assert all == Extend(CorpusOf(a + b), c);
    ExtendTwice(EmptyCorpus, a + b, c);
    if |all.texts| == 0 {
      return Raised(ValueError(NoTexts));
    }
    r := Returned(all);
  }

  /** One `try: all_texts.extend(...); all_metas.extend(...) except: ...`
      step of `main`: a loader that raised adds nothing. */
  method ExtendIfLoaded(acc: Corpus, loaded: Outcome<Corpus>) returns (r: Corpus)
    ensures loaded.Returned? ==> r == Corpus(acc.texts + loaded.value.texts, acc.metas + loaded.value.metas)
    ensures loaded.Raised? ==> r == acc
  {
    r := acc;
    if loaded.Returned? {
      r := Corpus(r.texts + loaded.value.texts, r.metas + loaded.value.metas);
    }
  }

  /** A loader's corpus holds what it contributes to `main`. */
  lemma AsCorpusContribution(o: Outcome<seq<Entry>>)
    ensures AsCorpus(o).Returned? <==> o.Returned?
    ensures AsCorpus(o).Returned? ==> AsCorpus(o).value == Corpus(Texts(o.value), Metas(o.value))
    ensures o.Raised? ==> Contribution(o) == []
  {
    match o
    case Raised(_) =>
    case Returned(es) =>
      assert EmptyCorpus.texts + Texts(es) == Texts(es);
      assert EmptyCorpus.metas + Metas(es) == Metas(es);
  }

  /** Ingestion refuses to build an index exactly when no source produced
      an entry: every loader raised or found nothing to index. */
  lemma NothingToIndex(pedidos: DataFile, faqs: DataFile, pdf: Outcome<seq<Entry>>)
    ensures Gathered(pedidos, faqs, pdf) == [] <==>
              && (PedidosEntries(pedidos).Raised? || PedidosEntries(pedidos).value == [])
              && (FaqsEntries(faqs).Raised? || FaqsEntries(faqs).value == [])
              && (pdf.Raised? || pdf.value == [])
  {
  }

  /** A readable order file with at least one order that serialises is
      enough for ingestion to go ahead, whatever the other sources do. */
  lemma OrdersSuffice(pedidos: DataFile, faqs: DataFile, pdf: Outcome<seq<Entry>>)
    requires pedidos.Decoded? && pedidos.value.JList? && |pedidos.value.items| > 0
    requires PedidosEntries(pedidos).Returned?
    ensures |Gathered(pedidos, faqs, pdf)| >= |pedidos.value.items|
    ensures StatusCount(Gathered(pedidos, faqs, pdf)[..|PedidosEntries(pedidos).value|]) == |pedidos.value.items|
  {
    StatusPerOrder(pedidos.value.items);
    var es := PedidosEntries(pedidos).value;
    assert Gathered(pedidos, faqs, pdf)[..|es|] == es;
  }
}
