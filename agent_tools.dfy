/**
 * The three return tools the EcoMarket agent calls: order status lookup,
 * return-eligibility check and return-label (RMA) issuance. The order file
 * and the clock are parameters: `pedidos` is the decoded list of order
 * records and `now` the value of `datetime.now()`.
 */
module AgentTools {
  import opened PyValues
  import opened Dates

  const ReturnWindowDays: int := 30

  const NonReturnableCategories: seq<string> := ["Alimento perecedero", "Higiene", "Medicamentos"]

  /** The two return processes, `recoleccion_prioritaria` and
      `recoleccion_domicilio`. */
  datatype Pickup = Priority | Home {
    /** The process name as the tools exchange it. */
    function Name(): string {
      if Priority? then "recoleccion_prioritaria" else "recoleccion_domicilio"
    }
    /** The pickup window the label promises. */
    function Window(): string {
      if Home? then "24-48 horas" else "24 horas"
    }
  }

  const SupportSteps: seq<string> := ["Contactar soporte para casos excepcionales"]

  const PrioritySteps: seq<string> := [
    "Un mensajero recogerá el producto en las próximas 24 horas",
    "No necesitas empacar el producto",
    "Recibirás reembolso completo en 3-5 días hábiles"
  ]

  const HomeSteps: seq<string> := [
    "Imprimir etiqueta de devolución",
    "Empacar el producto en su caja original",
    "Entregar paquete al mensajero",
    "Reembolso procesado al confirmar recepción (5-7 días hábiles)"
  ]

  const LabelUrlPrefix: string := "https://ecomarket.dev/devoluciones/"

  // ---------------------------------------------------------------------
  // Lookups

  /** `next((x for x in xs if test(x)), None)` and `any(test(x) for x in xs)`:
      the index of the first element the test accepts, scanning left to
      right and stopping at the first match or the first exception. */
  function Scan(xs: seq<Json>, test: Json -> Outcome<bool>): (r: Outcome<Option<nat>>)
    ensures r.Returned? && r.value.Some? ==>
              r.value.value < |xs| && test(xs[r.value.value]) == Returned(true)
              && forall j :: 0 <= j < r.value.value ==> test(xs[j]) == Returned(false)
    ensures r == Returned(None) <==> forall j :: 0 <= j < |xs| ==> test(xs[j]) == Returned(false)
    ensures r.Raised? ==>
              exists i :: 0 <= i < |xs| && test(xs[i]) == Raised(r.exc)
                          && forall j :: 0 <= j < i ==> test(xs[j]) == Returned(false)
  {
    if |xs| == 0 then Returned(None)
    else
      match test(xs[0])
      case Raised(e) => Raised(e)
      case Returned(true) => Returned(Some(0))
      case Returned(false) =>
        var r := Scan(xs[1..], test);
        assert forall j :: 1 <= j < |xs| ==> xs[j] == xs[1..][j - 1];
        if r.Raised? then
          var i :| 0 <= i < |xs[1..]| && test(xs[1..][i]) == Raised(r.exc)
                   && forall j :: 0 <= j < i ==> test(xs[1..][j]) == Returned(false);
          assert test(xs[i + 1]) == Raised(r.exc);
          r
        else if r.value.Some? then Returned(Some(r.value.value + 1))
        else r
  }

  /** The first index the test accepts, with every earlier element
      rejected, is what the scan returns. */
  lemma ScanFindsFirst(xs: seq<Json>, test: Json -> Outcome<bool>, j: nat)
    requires j < |xs| && test(xs[j]) == Returned(true)
    requires forall k :: 0 <= k < j ==> test(xs[k]) == Returned(false)
    ensures Scan(xs, test) == Returned(Some(j))
  {
  }

  /** `p.get("tracking_number") == order_id` */
  function TrackingMatches(orderId: string, p: Json): Outcome<bool> {
    var fs :- Fields(p);
    Returned(Get(fs, "tracking_number") == JStr(orderId))
  }

  /** `p.get("nombre", "").lower() == product_id.lower()` */
  function NameMatches(productId: string, p: Json): Outcome<bool> {
    var fs :- Fields(p);
    match GetOr(fs, "nombre", JStr(""))
    case JStr(n) => Returned(Lower(n) == Lower(productId))
    case _ => Raised(AttributeError)
  }

  /** An order record whose tracking number is not `orderId`. */
  predicate OtherOrder(p: Json, orderId: string) {
    p.JObject? && Get(p.fields, "tracking_number") != JStr(orderId)
  }

  /** The position of the first order whose tracking number is `orderId`:
      every earlier record is an order with another tracking number. No
      order is found exactly when every record is another order; a record
      that is not a dictionary, met before a match, raises AttributeError. */
  function FindOrder(pedidos: seq<Json>, orderId: string): (r: Outcome<Option<nat>>)
    ensures r.Returned? && r.value.Some? ==>
              && r.value.value < |pedidos| && pedidos[r.value.value].JObject?
              && Get(pedidos[r.value.value].fields, "tracking_number") == JStr(orderId)
              && forall j :: 0 <= j < r.value.value ==> OtherOrder(pedidos[j], orderId)
    ensures r == Returned(None) <==> forall j :: 0 <= j < |pedidos| ==> OtherOrder(pedidos[j], orderId)
    ensures r.Raised? ==>
              && r.exc == AttributeError
              && exists i :: 0 <= i < |pedidos| && !pedidos[i].JObject?
                             && forall j :: 0 <= j < i ==> OtherOrder(pedidos[j], orderId)
  {
    assert forall p :: TrackingMatches(orderId, p) == Returned(false) <==> OtherOrder(p, orderId);
    assert forall p :: TrackingMatches(orderId, p).Raised? <==> !p.JObject?;
    assert forall p :: TrackingMatches(orderId, p).Raised? ==> TrackingMatches(orderId, p).exc == AttributeError;
    var r := Scan(pedidos, p => TrackingMatches(orderId, p));
    assert r.Returned? && r.value.Some? ==> TrackingMatches(orderId, pedidos[r.value.value]) == Returned(true);
    r
  }

  /** The first order carrying the tracking number is the one used. */
  lemma FindOrderFirst(pedidos: seq<Json>, orderId: string, i: nat)
    requires i < |pedidos| && pedidos[i].JObject? && Get(pedidos[i].fields, "tracking_number") == JStr(orderId)
    requires forall j :: 0 <= j < i ==> OtherOrder(pedidos[j], orderId)
    ensures FindOrder(pedidos, orderId) == Returned(Some(i))
  {
    assert OtherOrder(pedidos[i], orderId) == false;
  }

  /** A product whose `nombre` is a string equal to `productId` ignoring case. */
  predicate NamedAs(p: Json, productId: string) {
    p.JObject? && ProductName(p).JStr? && Lower(ProductName(p).s) == Lower(productId)
  }

  /** A product whose `nombre` is a string other than `productId`, ignoring case. */
  predicate NamedOtherwise(p: Json, productId: string) {
    p.JObject? && ProductName(p).JStr? && Lower(ProductName(p).s) != Lower(productId)
  }

  /** The position of the first product named `productId`, ignoring case:
      every earlier product has another name. No product is found exactly
      when every product has another name; a product that is not a
      dictionary, or whose name is not a string, met before a match, raises
      AttributeError. */
  function FindProduct(productos: seq<Json>, productId: string): (r: Outcome<Option<nat>>)
    ensures r.Returned? && r.value.Some? ==>
              && r.value.value < |productos| && NamedAs(productos[r.value.value], productId)
              && forall j :: 0 <= j < r.value.value ==> NamedOtherwise(productos[j], productId)
    ensures r == Returned(None) <==> forall j :: 0 <= j < |productos| ==> NamedOtherwise(productos[j], productId)
    ensures r.Raised? ==>
              && r.exc == AttributeError
              && exists i :: 0 <= i < |productos| && !NamedAs(productos[i], productId)
                             && !NamedOtherwise(productos[i], productId)
                             && forall j :: 0 <= j < i ==> NamedOtherwise(productos[j], productId)
  {
    assert forall p :: NameMatches(productId, p) == Returned(true) <==> NamedAs(p, productId);
    assert forall p :: NameMatches(productId, p) == Returned(false) <==> NamedOtherwise(p, productId);
    assert forall p :: NameMatches(productId, p).Raised? ==> NameMatches(productId, p).exc == AttributeError;
    var r := Scan(productos, ProductTest(productId));
    assert r.Returned? && r.value.Some? ==> NameMatches(productId, productos[r.value.value]) == Returned(true);
    r
  }

  /** The test `FindProduct` scans with. */
  function ProductTest(productId: string): Json -> Outcome<bool> {
    p => NameMatches(productId, p)
  }

  /** Every record of the order file is a JSON object. */
  predicate OrdersAreObjects(pedidos: seq<Json>) {
    forall i :: 0 <= i < |pedidos| ==> pedidos[i].JObject?
  }

  /** The name a product is matched by (`p.get("nombre", "")`). */
  function ProductName(p: Json): Json
    requires p.JObject?
  {
    GetOr(p.fields, "nombre", JStr(""))
  }

  /** A product list as the catalogue writes it: a list of objects whose
      name, when present, is a string. */
  predicate WellFormedProducts(v: Json) {
    v.JList? && forall i :: 0 <= i < |v.items| ==> v.items[i].JObject? && ProductName(v.items[i]).JStr?
  }

  /** A product value the loops of `consultar_estado_pedido` can walk:
      iterable, with every element a dictionary. */
  predicate ProductObjects(v: Json) {
    Iterate(v).Returned? && forall i :: 0 <= i < |Iterate(v).value| ==> Iterate(v).value[i].JObject?
  }

  /** The products of an order (`pedido.get("productos", [])`). */
  function Productos(order: seq<(string, Json)>): Json {
    GetOr(order, "productos", JList([]))
  }

  // ---------------------------------------------------------------------
  // consultar_estado_pedido

  /** The dictionary `consultar_estado_pedido` returns; `None` marks a key
      the dictionary does not have. */
  datatype OrderStatus = OrderStatus(
    existe: bool,
    error: Option<string>,
    productoExiste: Option<bool>,
    fueEntregado: bool,
    fechaEntrega: Option<Json>,
    devolucionEnProgreso: bool,
    estadoActual: Option<Json>,
    transportadora: Option<Json>,
    destino: Option<Json>,
    productos: Option<seq<Json>>)

  /** The answer for an unknown tracking number. */
  function MissingOrderStatus(orderId: string): OrderStatus {
    OrderStatus(false, Some("No se encontró el pedido " + orderId), None, false, None, false, None, None, None, None)
  }

  /** `[p.get("nombre") for p in productos]` */
  function ProductNames(ps: seq<Json>): (r: Outcome<seq<Json>>)
    ensures r.Returned? <==> forall i :: 0 <= i < |ps| ==> ps[i].JObject?
    ensures r.Returned? ==> |r.value| == |ps| && forall i :: 0 <= i < |ps| ==> r.value[i] == Get(ps[i].fields, "nombre")
  {
    if |ps| == 0 then Returned([])
    else
      var fs :- Fields(ps[0]);
      var rest :- ProductNames(ps[1..]);
      assert forall i :: 1 <= i < |ps| ==> ps[i] == ps[1..][i - 1];
      Returned([Get(fs, "nombre")] + rest)
  }

  /** `any(p.get("nombre", "").lower() == product_id.lower() for p in productos)` */
  function ProductInOrder(productos: Json, productId: string): Outcome<bool> {
    var ps :- Iterate(productos);
    var hit :- FindProduct(ps, productId);
    Returned(hit.Some?)
  }

  /** `consultar_estado_pedido(order_id, product_id)`: whether the order
      exists, was delivered and holds the named product. */
  function ConsultarEstadoPedido(pedidos: seq<Json>, orderId: string, productId: Option<string>): (r: Outcome<OrderStatus>)
    ensures FindOrder(pedidos, orderId).Raised? ==> r.Raised?
    ensures FindOrder(pedidos, orderId) == Returned(None) ==> r == Returned(MissingOrderStatus(orderId))
    ensures r.Returned? ==> !r.value.devolucionEnProgreso
    ensures r.Returned? ==>
              FindOrder(pedidos, orderId).Returned? && (r.value.existe <==> FindOrder(pedidos, orderId).value.Some?)
    ensures FindOrder(pedidos, orderId).Returned? && FindOrder(pedidos, orderId).value.Some? ==>
              var productos := Productos(pedidos[FindOrder(pedidos, orderId).value.value].fields);
              (r.Raised? <==>
                 || (productId.Some? && productId.value != "" && ProductInOrder(productos, productId.value).Raised?)
                 || Iterate(productos).Raised?
                 || ProductNames(Iterate(productos).value).Raised?)
    ensures r.Returned? && r.value.existe ==>
              var i := FindOrder(pedidos, orderId).value.value;
              var order := pedidos[i].fields;
              && r.value.fueEntregado == (Get(order, "estado") == JStr("Entregado"))
              && r.value.estadoActual == Some(Get(order, "estado"))
              && r.value.fechaEntrega == Some(GetOr(order, "fecha_entrega_real", JStr("")))
              && r.value.transportadora == Some(Get(order, "transportadora"))
              && r.value.destino == Some(Get(order, "destino"))
              && r.value.error == None
              && (productId.None? || productId == Some("") ==> r.value.productoExiste == Some(true))
  {
    var found :- FindOrder(pedidos, orderId);
    match found
    case None => Returned(MissingOrderStatus(orderId))
    case Some(i) =>
      var order := pedidos[i].fields;
      var productos := Productos(order);
      var productoExiste :-
        if productId.Some? && productId.value != "" then ProductInOrder(productos, productId.value)
        else Returned(true);
      var ps :- Iterate(productos);
      var nombres :- ProductNames(ps);
      Returned(OrderStatus(
        existe := true,
        error := None,
        productoExiste := Some(productoExiste),
        fueEntregado := Get(order, "estado") == JStr("Entregado"),
        fechaEntrega := Some(GetOr(order, "fecha_entrega_real", JStr(""))),
        devolucionEnProgreso := false,
        estadoActual := Some(Get(order, "estado")),
        transportadora := Some(Get(order, "transportadora")),
        destino := Some(Get(order, "destino")),
        productos := Some(nombres)))
  }

  /** An unknown tracking number: the order does not exist, was not
      delivered, has no return in progress, and the error names the id. */
  lemma UnknownOrderStatus(pedidos: seq<Json>, orderId: string, productId: Option<string>)
    requires OrdersAreObjects(pedidos)
    requires forall i :: 0 <= i < |pedidos| ==> Get(pedidos[i].fields, "tracking_number") != JStr(orderId)
    ensures var r := ConsultarEstadoPedido(pedidos, orderId, productId);
            && r.Returned? && !r.value.existe && !r.value.fueEntregado && !r.value.devolucionEnProgreso
            && r.value.error == Some("No se encontró el pedido " + orderId)
  {
    assert forall i :: 0 <= i < |pedidos| ==> TrackingMatches(orderId, pedidos[i]) == Returned(false);
    assert FindOrder(pedidos, orderId) == Returned(None);
  }

  /** For a found order whose products are dictionaries, the lookup
      succeeds, reports the order as existing and lists the product names
      in order, whether or not a product was asked for. With no product (or
      an empty one) the product counts as present; when one is asked for
      and every name is a string, it is present exactly when some name
      matches ignoring case. */
  lemma FoundOrderProducts(pedidos: seq<Json>, orderId: string, productId: Option<string>)
    requires FindOrder(pedidos, orderId).Returned? && FindOrder(pedidos, orderId).value.Some?
    requires ProductObjects(Productos(pedidos[FindOrder(pedidos, orderId).value.value].fields))
    requires productId.Some? && productId.value != "" ==>
               var ps := Iterate(Productos(pedidos[FindOrder(pedidos, orderId).value.value].fields)).value;
               forall j :: 0 <= j < |ps| ==> ProductName(ps[j]).JStr?
    ensures var ps := Iterate(Productos(pedidos[FindOrder(pedidos, orderId).value.value].fields)).value;
            var r := ConsultarEstadoPedido(pedidos, orderId, productId);
            && r.Returned? && r.value.existe
            && r.value.productos == Some(seq(|ps|, j requires 0 <= j < |ps| => Get(ps[j].fields, "nombre")))
            && (productId.None? || productId == Some("") ==> r.value.productoExiste == Some(true))
            && (productId.Some? && productId.value != "" ==>
                  (r.value.productoExiste == Some(true) <==>
                   exists j :: 0 <= j < |ps| && Lower(ProductName(ps[j]).s) == Lower(productId.value)))
  {
    var order := pedidos[FindOrder(pedidos, orderId).value.value].fields;
    var ps := Iterate(Productos(order)).value;
    var names := ProductNames(ps);
    assert names.Returned?;
    assert names.value == seq(|ps|, j requires 0 <= j < |ps| => Get(ps[j].fields, "nombre"));
    if productId.Some? && productId.value != "" {
      assert WellFormedProducts(JList(ps));
      var hit := ProductHit(ps, productId.value);
      assert ProductInOrder(Productos(order), productId.value) == Returned(hit);
    }
  }

  /** Over a well-formed product list the search for a name never raises,
      and finds one exactly when some name matches ignoring case. */
  function ProductHit(ps: seq<Json>, productId: string): (found: bool)
    requires WellFormedProducts(JList(ps))
    ensures FindProduct(ps, productId) == Returned(if found then FindProduct(ps, productId).value else None)
    ensures found <==> exists j :: 0 <= j < |ps| && Lower(ProductName(ps[j]).s) == Lower(productId)
  {
    assert forall j :: 0 <= j < |ps| ==> NameMatches(productId, ps[j]) == Returned(Lower(ProductName(ps[j]).s) == Lower(productId));
    var hit := FindProduct(ps, productId);
    assert hit.Returned?;
    if hit.value.Some? then
      assert Lower(ProductName(ps[hit.value.value]).s) == Lower(productId);
      true
    else
      false
  }

  // ---------------------------------------------------------------------
  // verificar_elegibilidad_producto

  /** The dictionary `verificar_elegibilidad_producto` returns; `None` marks
      a key the dictionary does not have. */
  datatype Verdict = Verdict(
    esElegible: bool,
    razon: string,
    categoriaProceso: Option<Pickup>,
    pasosSiguientes: seq<string>,
    diasRestantes: Option<int>,
    motivoRegistrado: Option<string>)

  function Rejected(razon: string, pasos: seq<string>): (v: Verdict)
    ensures !v.esElegible && v.categoriaProceso.None? && v.diasRestantes.None?
  {
    Verdict(false, razon, None, pasos, None, None)
  }

  /** Rule 1: the category is one the store never takes back, or the
      product's `dev_aceptada` is falsy. */
  predicate ExcludedByCategory(categoria: Json, devAceptada: Json) {
    (categoria.JStr? && categoria.s in NonReturnableCategories) || !Truthy(devAceptada)
  }

  function CategoryReason(categoria: Json): string {
    "Los productos de categoría '" + PyStr(categoria) + "' no aceptan devoluciones por política de seguridad"
  }

  function WindowReason(dias: int): string {
    "Han transcurrido " + IntToString(dias) + " días desde la entrega. El plazo máximo es de 30 días"
  }

  function ConditionReason(estadoProducto: string): string {
    "Producto en estado '" + estadoProducto + "' no es elegible para devolución"
  }

  /** The whole days between the delivery date and now. */
  function ElapsedDays(now: Clock, delivered: Date): int
    requires ValidClock(now) && ValidDate(delivered)
  {
    TimedeltaDays(now, delivered)
  }

  /** The policy rules, applied in order once the order and the product have
      been found: category, delivery date, 30-day window, condition. */
  function ApplyPolicy(categoria: Json, devAceptada: Json, motivo: string, fechaEntrega: string,
                       estadoProducto: string, now: Clock): (v: Verdict)
    requires ValidClock(now)
    ensures v.esElegible ==>
              && v.diasRestantes.Some? && 0 <= v.diasRestantes.value
              && v.motivoRegistrado == Some(motivo)
              && v.categoriaProceso.Some?
              && (v.categoriaProceso == Some(Priority) <==> estadoProducto == "dañado_transporte")
    ensures !v.esElegible ==> v.categoriaProceso.None? && v.diasRestantes.None? && v.motivoRegistrado.None?
  {
    if ExcludedByCategory(categoria, devAceptada) then
      Rejected(CategoryReason(categoria), SupportSteps)
    else
      match ParseDate(fechaEntrega)
      case None => Rejected("Fecha de entrega inválida", [])
      case Some(delivered) =>
        var dias := ElapsedDays(now, delivered);
        if dias > ReturnWindowDays then Rejected(WindowReason(dias), [])
        else if estadoProducto == "usado" then Rejected(ConditionReason(estadoProducto), [])
        else
          var priority := estadoProducto == "dañado_transporte";
          Verdict(
            esElegible := true,
            razon := "Producto dentro de ventana de 30 días y estado '" + estadoProducto + "' aceptable",
            categoriaProceso := Some(if priority then Priority else Home),
            pasosSiguientes := if priority then PrioritySteps else HomeSteps,
            diasRestantes := Some(ReturnWindowDays - dias),
            motivoRegistrado := Some(motivo))
  }

  /** `verificar_elegibilidad_producto(order_id, product_id, motivo_devolucion,
      fecha_entrega, estado_producto)`. The delivery date is the caller's
      argument; the order's own status and dates are not consulted. */
  function VerificarElegibilidadProducto(pedidos: seq<Json>, orderId: string, productId: string,
                                         motivo: string, fechaEntrega: string, estadoProducto: string,
                                         now: Clock): (r: Outcome<Verdict>)
    requires ValidClock(now)
    ensures FindOrder(pedidos, orderId) == Returned(None) ==>
              r == Returned(Rejected("Pedido " + orderId + " no encontrado", []))
    ensures r.Returned? && r.value.esElegible ==>
              && r.value.diasRestantes.Some? && r.value.diasRestantes.value >= 0
              && r.value.motivoRegistrado == Some(motivo)
              && (r.value.categoriaProceso == Some(Priority) <==> estadoProducto == "dañado_transporte")
  {
    var found :- FindOrder(pedidos, orderId);
    if found.None? then Returned(Rejected("Pedido " + orderId + " no encontrado", []))
    else
      var ps :- Iterate(Productos(pedidos[found.value].fields));
      var hit :- FindProduct(ps, productId);
      if hit.None? || !Truthy(ps[hit.value]) then
        Returned(Rejected("Producto '" + productId + "' no encontrado en el pedido " + orderId, []))
      else
        var producto := ps[hit.value].fields;
        Returned(ApplyPolicy(GetOr(producto, "categoria", JStr("")), GetOr(producto, "dev_aceptada", JBool(false)),
                             motivo, fechaEntrega, estadoProducto, now))
  }

  /** A product missing from a found order is rejected before any policy
      rule, with no process category and no next steps. */
  lemma UnknownProductRejected(pedidos: seq<Json>, orderId: string, productId: string, motivo: string,
                               fechaEntrega: string, estadoProducto: string, now: Clock)
    requires ValidClock(now)
    requires FindOrder(pedidos, orderId).Returned? && FindOrder(pedidos, orderId).value.Some?
    requires WellFormedProducts(Productos(pedidos[FindOrder(pedidos, orderId).value.value].fields))
    requires var ps := Productos(pedidos[FindOrder(pedidos, orderId).value.value].fields).items;
             forall j :: 0 <= j < |ps| ==> Lower(ProductName(ps[j]).s) != Lower(productId)
    ensures VerificarElegibilidadProducto(pedidos, orderId, productId, motivo, fechaEntrega, estadoProducto, now)
            == Returned(Rejected("Producto '" + productId + "' no encontrado en el pedido " + orderId, []))
  {
    var ps := Productos(pedidos[FindOrder(pedidos, orderId).value.value].fields).items;
    assert forall j :: 0 <= j < |ps| ==> NameMatches(productId, ps[j]) == Returned(false);
    assert FindProduct(ps, productId) == Returned(None);
  }

  /** A found product is judged by the policy rules on its own category and
      `dev_aceptada` flag. (With an empty product name, an empty record
      would match and then read as "not found"; the name here is not empty.) */
  lemma FoundProductJudgedByPolicy(pedidos: seq<Json>, orderId: string, productId: string, motivo: string,
                                   fechaEntrega: string, estadoProducto: string, now: Clock, j: nat)
    requires ValidClock(now)
    requires FindOrder(pedidos, orderId).Returned? && FindOrder(pedidos, orderId).value.Some?
    requires WellFormedProducts(Productos(pedidos[FindOrder(pedidos, orderId).value.value].fields))
    requires productId != ""
    requires var ps := Productos(pedidos[FindOrder(pedidos, orderId).value.value].fields).items;
             && j < |ps| && Lower(ProductName(ps[j]).s) == Lower(productId)
             && (forall k :: 0 <= k < j ==> Lower(ProductName(ps[k]).s) != Lower(productId))
    ensures var p := Productos(pedidos[FindOrder(pedidos, orderId).value.value].fields).items[j].fields;
            VerificarElegibilidadProducto(pedidos, orderId, productId, motivo, fechaEntrega, estadoProducto, now)
            == Returned(ApplyPolicy(GetOr(p, "categoria", JStr("")), GetOr(p, "dev_aceptada", JBool(false)),
                                    motivo, fechaEntrega, estadoProducto, now))
  {
    var ps := Productos(pedidos[FindOrder(pedidos, orderId).value.value].fields).items;
    assert forall k :: 0 <= k < |ps| ==> NameMatches(productId, ps[k]) == Returned(Lower(ProductName(ps[k]).s) == Lower(productId));
    ScanFindsFirst(ps, ProductTest(productId), j);
    assert Truthy(ps[j]) by {
      assert |Lower(ProductName(ps[j]).s)| == |Lower(productId)| > 0;
      assert Find(ps[j].fields, "nombre").Some?;
    }
  }

  /** Rule 1 decides before any other: a non-returnable category or a falsy
      `dev_aceptada` is rejected with the one support step, whatever the
      delivery date (even an unreadable one) and the product's condition. */
  lemma CategoryRuleWins(categoria: Json, devAceptada: Json, motivo: string, fechaEntrega: string,
                         estadoProducto: string, now: Clock)
    requires ValidClock(now)
    requires ExcludedByCategory(categoria, devAceptada)
    ensures ApplyPolicy(categoria, devAceptada, motivo, fechaEntrega, estadoProducto, now)
            == Rejected(CategoryReason(categoria), ["Contactar soporte para casos excepcionales"])
  {
  }

  /** Rule 2: an unreadable delivery date is rejected with the fixed reason. */
  lemma InvalidDateRejected(categoria: Json, devAceptada: Json, motivo: string, fechaEntrega: string,
                            estadoProducto: string, now: Clock)
    requires ValidClock(now)
    requires !ExcludedByCategory(categoria, devAceptada) && ParseDate(fechaEntrega).None?
    ensures ApplyPolicy(categoria, devAceptada, motivo, fechaEntrega, estadoProducto, now)
            == Rejected("Fecha de entrega inválida", [])
  {
  }

  /** Rule 3: more than 30 calendar days after the delivery the return is
      rejected, and the reason states the day count. */
  lemma WindowExpiredRejected(categoria: Json, devAceptada: Json, motivo: string, fechaEntrega: string,
                              estadoProducto: string, now: Clock)
    requires ValidClock(now)
    requires !ExcludedByCategory(categoria, devAceptada) && ParseDate(fechaEntrega).Some?
    requires Ordinal(now.date) - Ordinal(ParseDate(fechaEntrega).value) > 30
    ensures ApplyPolicy(categoria, devAceptada, motivo, fechaEntrega, estadoProducto, now)
            == Rejected(WindowReason(Ordinal(now.date) - Ordinal(ParseDate(fechaEntrega).value)), [])
  {
    TimedeltaDaysIsOrdinalDifference(now, ParseDate(fechaEntrega).value);
  }

  /** Past the category and date rules, the verdict is positive exactly when
      the delivery is at most 30 days old (30 itself included) and the
      product is not declared "usado"; the days left are 30 minus the days
      elapsed, and damage in transport selects the priority pickup. */
  lemma EligibleExactly(categoria: Json, devAceptada: Json, motivo: string, fechaEntrega: string,
                        estadoProducto: string, now: Clock)
    requires ValidClock(now)
    requires !ExcludedByCategory(categoria, devAceptada) && ParseDate(fechaEntrega).Some?
    ensures var elapsed := Ordinal(now.date) - Ordinal(ParseDate(fechaEntrega).value);
            var v := ApplyPolicy(categoria, devAceptada, motivo, fechaEntrega, estadoProducto, now);
            && (v.esElegible <==> elapsed <= 30 && estadoProducto != "usado")
            && (elapsed <= 30 && estadoProducto == "usado" ==> v == Rejected(ConditionReason("usado"), []))
            && (v.esElegible ==>
                  && v.diasRestantes == Some(30 - elapsed)
                  && (estadoProducto == "dañado_transporte" ==>
                        v.categoriaProceso == Some(Priority) && v.pasosSiguientes == PrioritySteps)
                  && (estadoProducto != "dañado_transporte" ==>
                        v.categoriaProceso == Some(Home) && v.pasosSiguientes == HomeSteps))
  {
    TimedeltaDaysIsOrdinalDifference(now, ParseDate(fechaEntrega).value);
  }

  // ---------------------------------------------------------------------
  // generar_etiqueta_devolucion

  /** The dictionary `generar_etiqueta_devolucion` returns. */
  datatype Label =
    | LabelRefused(error: string)
    | Label(
        rmaId: string,
        transportadora: Json,
        tipoEnvio: Pickup,
        instruccionesCliente: string,
        etiquetaPdfUrl: string,
        fechaGeneracion: string,
        ordenOriginal: string,
        producto: string,
        cliente: Json,
        direccionRecoleccion: Json,
        motivo: string,
        estadoRma: string,
        tiempoEstimadoRecoleccion: string)
  {
    /** The `rma_id` key: `None` when no label was made. */
    function RmaIdOrNone(): Option<string> {
      if LabelRefused? then None else Some(rmaId)
    }
  }

  /** `f"RMA-{now.year}-{now.strftime('%Y%m%d%H%M%S')[-6:]}"` */
  function RmaId(now: Clock): string
    requires ValidClock(now)
  {
    var timestamp := Timestamp(now);
    TimestampSuffix(now);
    "RMA-" + IntToString(now.date.year) + "-" + timestamp[|timestamp| - 6..]
  }

  /** The RMA identifier is "RMA-", the year, "-" and the time of day as
      HHMMSS. */
  lemma RmaIdFormat(now: Clock)
    requires ValidClock(now)
    ensures RmaId(now) == "RMA-" + NatToString(now.date.year) + "-" + TimeOfDay(now)
    ensures RmaId(now)[..4] == "RMA-"
  {
    TimestampSuffix(now);
  }

  /** Two issuances get the same identifier exactly when their clocks agree
      on the year and on the hour, minute and second: identifiers are not
      unique, and repeat every day of a year at the same time of day. */
  lemma RmaIdCollision(a: Clock, b: Clock)
    requires ValidClock(a) && ValidClock(b)
    ensures RmaId(a) == RmaId(b) <==>
            a.date.year == b.date.year && a.hour == b.hour && a.minute == b.minute && a.second == b.second
  {
    RmaIdFormat(a);
    RmaIdFormat(b);
    TimeOfDayInjective(a, b);
    var ya, yb := NatToString(a.date.year), NatToString(b.date.year);
    RmaParts(ya, TimeOfDay(a));
    RmaParts(yb, TimeOfDay(b));
    if RmaId(a) == RmaId(b) {
      NatToStringInjective(a.date.year, b.date.year);
    }
  }

  /** An identifier splits back into its year and its six-character time. */
  lemma RmaParts(year: string, time: string)
    requires |time| == 6
    ensures var r := "RMA-" + year + "-" + time;
            |r| == |year| + 11 && r[4..4 + |year|] == year && r[|r| - 6..] == time
  {
    var r := "RMA-" + year + "-" + time;
    assert r == "RMA-" + (year + ("-" + time));
  }

  /** The text of `instrucciones_cliente` before and after the carrier. */
  function InstructionsHead(kind: Pickup): string {
    if kind.Priority? then "Un mensajero de "
    else
      "1. Descarga e imprime la etiqueta adjunta\n"
      + "2. Empaca el producto en su caja original con todos los accesorios\n"
      + "3. Pega la etiqueta en el exterior del paquete\n"
      + "4. Entrega el paquete al mensajero de "
  }

  function InstructionsTail(kind: Pickup): string {
    if kind.Priority? then
      " pasará en las próximas 24 horas. "
      + "Ten el producto disponible tal como lo recibiste. "
      + "El reembolso se procesará automáticamente."
    else
      "\n"
      + "5. Recibirás confirmación por email y el reembolso en 5-7 días hábiles"
  }

  /** The customer's instructions for a pickup kind, with the carrier's
      name filled in. */
  function Instructions(kind: Pickup, carrier: string): string {
    InstructionsHead(kind) + carrier + InstructionsTail(kind)
  }

  /** The instructions name the carrier right after their fixed opening. */
  lemma InstructionsNameCarrier(kind: Pickup, carrier: string)
    ensures var t, h := Instructions(kind, carrier), InstructionsHead(kind);
            |h| + |carrier| <= |t| && t[..|h|] == h && t[|h|..|h| + |carrier|] == carrier
  {
    Slices(InstructionsHead(kind), carrier, InstructionsTail(kind));
  }

  /** The label made for a found order: the identifier and URL derived
      from the clock, the order's carrier and defaults for what the caller
      left empty. */
  function IssueLabel(order: seq<(string, Json)>, orderId: string, productId: string,
                      categoriaProceso: string, direccionCliente: Option<string>,
                      nombreCliente: Option<string>, motivo: Option<string>, now: Clock): (l: Label)
    requires ValidClock(now)
    ensures l.Label?
    ensures l.rmaId == "RMA-" + NatToString(now.date.year) + "-" + TimeOfDay(now)
    ensures l.etiquetaPdfUrl == LabelUrlPrefix + l.rmaId + ".pdf"
    ensures l.fechaGeneracion == IsoFormat(now)
    ensures l.estadoRma == "Iniciado" && l.ordenOriginal == orderId && l.producto == productId
  {
    var rmaId := RmaId(now);
    RmaIdFormat(now);
    var transportadora := GetOr(order, "transportadora", JStr("EcoExpress"));
    var priority := categoriaProceso == Priority.Name();
    var tipoEnvio := if priority then Priority else Home;
    Label(
      rmaId := rmaId,
      transportadora := transportadora,
      tipoEnvio := tipoEnvio,
      instruccionesCliente := Instructions(tipoEnvio, PyStr(transportadora)),
      etiquetaPdfUrl := LabelUrlPrefix + rmaId + ".pdf",
      fechaGeneracion := IsoFormat(now),
      ordenOriginal := orderId,
      producto := productId,
      cliente := if nombreCliente.Some? && nombreCliente.value != "" then JStr(nombreCliente.value)
                 else GetOr(order, "cliente", JStr("Cliente EcoMarket")),
      direccionRecoleccion := if direccionCliente.Some? && direccionCliente.value != "" then JStr(direccionCliente.value)
                              else GetOr(order, "destino", JStr("Dirección registrada")),
      motivo := if motivo.Some? && motivo.value != "" then motivo.value else "No especificado",
      estadoRma := "Iniciado",
      tiempoEstimadoRecoleccion := tipoEnvio.Window())
  }

  /** The pickup kind: priority exactly when the caller asked for it, home
      pickup otherwise, with a 24-hour window for the first and 24 to 48
      hours for the second; the carrier is the order's, "EcoExpress" when
      the order names none. */
  lemma LabelPickup(order: seq<(string, Json)>, orderId: string, productId: string,
                    categoriaProceso: string, direccionCliente: Option<string>,
                    nombreCliente: Option<string>, motivo: Option<string>, now: Clock)
    requires ValidClock(now)
    ensures var l := IssueLabel(order, orderId, productId, categoriaProceso, direccionCliente, nombreCliente, motivo, now);
            && (l.tipoEnvio == Priority <==> categoriaProceso == Priority.Name())
            && (l.tiempoEstimadoRecoleccion == "24 horas" <==> l.tipoEnvio == Priority)
            && (l.tiempoEstimadoRecoleccion == "24-48 horas" <==> l.tipoEnvio == Home)
            && l.transportadora == GetOr(order, "transportadora", JStr("EcoExpress"))
  {
    assert "24-48 horas" != "24 horas" by { assert "24-48 horas"[2] != "24 horas"[2]; }
  }

  /** The label's instructions are those of its pickup kind and name its
      carrier right after their fixed opening. */
  lemma LabelNamesCarrier(order: seq<(string, Json)>, orderId: string, productId: string,
                          categoriaProceso: string, direccionCliente: Option<string>,
                          nombreCliente: Option<string>, motivo: Option<string>, now: Clock)
    requires ValidClock(now)
    ensures var l := IssueLabel(order, orderId, productId, categoriaProceso, direccionCliente, nombreCliente, motivo, now);
            var h, c := InstructionsHead(l.tipoEnvio), PyStr(l.transportadora);
            && l.instruccionesCliente == Instructions(l.tipoEnvio, c)
            && |h| + |c| <= |l.instruccionesCliente| && l.instruccionesCliente[|h|..|h| + |c|] == c
  {
    var kind := if categoriaProceso == Priority.Name() then Priority else Home;
    InstructionsNameCarrier(kind, PyStr(GetOr(order, "transportadora", JStr("EcoExpress"))));
  }

  /** The customer, the pickup address and the reason are the caller's
      when given and not empty; otherwise the order's customer and
      destination, or the fixed fallbacks. */
  lemma LabelContactDefaults(order: seq<(string, Json)>, orderId: string, productId: string,
                             categoriaProceso: string, direccionCliente: Option<string>,
                             nombreCliente: Option<string>, motivo: Option<string>, now: Clock)
    requires ValidClock(now)
    ensures var l := IssueLabel(order, orderId, productId, categoriaProceso, direccionCliente, nombreCliente, motivo, now);
            && (nombreCliente.Some? && nombreCliente.value != "" ==> l.cliente == JStr(nombreCliente.value))
            && (nombreCliente.None? || nombreCliente == Some("") ==>
                  l.cliente == GetOr(order, "cliente", JStr("Cliente EcoMarket")))
            && (direccionCliente.Some? && direccionCliente.value != "" ==>
                  l.direccionRecoleccion == JStr(direccionCliente.value))
            && (direccionCliente.None? || direccionCliente == Some("") ==>
                  l.direccionRecoleccion == GetOr(order, "destino", JStr("Dirección registrada")))
            && (motivo.Some? && motivo.value != "" ==> l.motivo == motivo.value)
            && (motivo.None? || motivo == Some("") ==> l.motivo == "No especificado")
  {
  }

  /** `generar_etiqueta_devolucion(order_id, product_id, categoria_proceso,
      direccion_cliente, nombre_cliente, motivo_devolucion)`: an unknown order
      gets no RMA identifier; a known one gets the label of `IssueLabel`. */
  function GenerarEtiquetaDevolucion(pedidos: seq<Json>, orderId: string, productId: string,
                                     categoriaProceso: string, direccionCliente: Option<string>,
                                     nombreCliente: Option<string>, motivo: Option<string>,
                                     now: Clock): (r: Outcome<Label>)
    requires ValidClock(now)
    ensures FindOrder(pedidos, orderId) == Returned(None) ==>
              r == Returned(LabelRefused("Pedido " + orderId + " no encontrado"))
              && r.value.RmaIdOrNone() == None
    ensures FindOrder(pedidos, orderId).Raised? ==> r.Raised?
    ensures FindOrder(pedidos, orderId).Returned? && FindOrder(pedidos, orderId).value.Some? ==>
              && r == Returned(IssueLabel(pedidos[FindOrder(pedidos, orderId).value.value].fields, orderId, productId,
                                          categoriaProceso, direccionCliente, nombreCliente, motivo, now))
              && r.value.RmaIdOrNone() == Some(r.value.rmaId)
  {
    var found :- FindOrder(pedidos, orderId);
    if found.None? then Returned(LabelRefused("Pedido " + orderId + " no encontrado"))
    else Returned(IssueLabel(pedidos[found.value].fields, orderId, productId, categoriaProceso,
                             direccionCliente, nombreCliente, motivo, now))
  }
}
