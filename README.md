# EcoMarket return assistant, modelled in Dafny

This project models the deterministic core of the EcoMarket return
assistant. The assistant is a customer-service agent that answers questions
about orders and return policy, and it can start a product return.

- **The three return tools** (`agent_tools.dfy`, module `AgentTools`):
  - the order status lookup (`consultar_estado_pedido`);
  - the eligibility check against the return policy (`verificar_elegibilidad_producto`);
  - the return label with its RMA identifier (`generar_etiqueta_devolucion`).

  The decoded order file and the value of `datetime.now()` are parameters.
  Each tool is a pure function returning the result dictionary, or the
  exception Python would raise.
- **The ingestion scripts** (`ingest_data.dfy`, module `IngestData`;
  `ingest_direct.dfy`, module `IngestDirect`). They turn the order file and
  the FAQ file into the parallel `texts`/`metas` lists that the vector index
  is built from.
  - The loaders and `main` are methods with loops.
  - Each method is proved equal to a specification function over the
    decoded input. Properties of that function are then proved as lemmas:
    one status entry per order, products in order, the perishable policy
    exactly when due, skipped FAQs, the order of sources and the empty-result
    errors.
- **The agent's result handling** (`agent.dfy`, module `Agent`):
  - the dictionary `run` returns after an answer or after an exception;
  - the `used_tools` list;
  - the text `format_response` shows the customer.
- **Supporting modules.** `python_values.dfy` (module `PyValues`) holds the
  Python semantics the code relies on: truthiness, `or`, `dict.get`,
  iteration, `str`/`repr`, `lower`, `strip`, decimal digits. `dates.dfy`
  (module `Dates`) holds `strptime("%Y-%m-%d")`, calendar ordinals, the
  timedelta day count, `strftime` and `isoformat`.

A Python exception is the `Raised` case of `Outcome`. An `AttributeError`
comes from calling `.get` on a value that is not a dictionary. A `TypeError`
comes from iterating a value that is not iterable, or joining non-strings.
A `ValueError` carries its message.

Two behaviours of the code are kept as written:

- The comment above the RMA code in agent_tools.py:235 calls the identifier unique, but the identifier is built from the year and the time of day alone (agent_tools.py:236-237). The model proves exactly when two identifiers collide (`AgentTools.RmaIdCollision`) instead of claiming uniqueness.
- The return window runs from the `fecha_entrega` argument the caller passes (agent_tools.py:85, 145). The order record's own `fecha_entrega_real` and `estado` play no part in the eligibility verdict.

## Model

| member | source | states |
|---|---|---|
| PyValues.FindSpec | ecomarket-rag-assistant/src/agent_tools.py:41 | `dict.get` finds a key exactly when some entry carries it, and returns that entry's value |
| PyValues.FindBinding | ecomarket-rag-assistant/src/agent_tools.py:41 | in a dictionary with distinct keys, `dict.get` of a key returns the value bound to it |
| PyValues.Iterate | ecomarket-rag-assistant/src/ingest_data.py:117 | a `for` loop visits a list's items, a string's characters or a dictionary's keys, and raises TypeError on anything else; it visits something exactly when the value is truthy |
| PyValues.SEmpty | ecomarket-rag-assistant/src/ingest_data.py:22-24 | `s(x)` is empty exactly when `x` is None or the empty string |
| PyValues.ReprPlainString | ecomarket-rag-assistant/src/ingest_data.py:22-24 | `str` of a list or dictionary writes a plain string between single quotes, or between double quotes when it holds a single quote and no double quote |
| PyValues.ReprEscapes | ecomarket-rag-assistant/src/ingest_data.py:22-24 | `repr` escapes the chosen quote, the backslash and control characters such as a newline |
| PyValues.EscapeChar | ecomarket-rag-assistant/src/ingest_data.py:22-24 | a character is written as itself exactly when it is printable and is neither the quote nor a backslash; otherwise it becomes a backslash escape |
| PyValues.Lower | ecomarket-rag-assistant/src/agent_tools.py:63 | lower-casing keeps the length, lowers each character on its own, and leaves no capital letter |
| PyValues.LowerIdempotent | ecomarket-rag-assistant/src/agent_tools.py:63 | lower-casing twice is lower-casing once, so both sides of the name comparison are in the same form |
| PyValues.LowerIgnoresCase | ecomarket-rag-assistant/src/agent_tools.py:63 | two texts lower-case to the same text exactly when they have the same length and agree character by character up to case, which is the comparison `nombre.lower() == product_id.lower()` makes |
| PyValues.StripSpec | ecomarket-rag-assistant/src/ingest_data.py:97-103 | `strip()` returns a slice of its input that neither starts nor ends with white space, and everything it removed is white space |
| PyValues.StripNoSpace | ecomarket-rag-assistant/src/ingest_data.py:97-103 | `strip()` leaves unchanged a text that neither starts nor ends with white space |
| PyValues.NatToStringRoundTrip | ecomarket-rag-assistant/src/agent_tools.py:237 | reading back the decimal text of a year gives the year |
| PyValues.NatToStringInjective | ecomarket-rag-assistant/src/agent_tools.py:237 | different years print differently |
| PyValues.PadProperties | ecomarket-rag-assistant/src/agent_tools.py:236 | zero-padding a number below 10^width gives exactly `width` digits with the same value |
| Dates.ParseDate | ecomarket-rag-assistant/src/agent_tools.py:145 | a date that `strptime` accepts exists in the calendar (years 1 to 9999, month lengths, leap years) |
| Dates.ParseFormatRoundTrip | ecomarket-rag-assistant/src/agent_tools.py:145 | every valid date written as YYYY-MM-DD parses back to itself |
| Dates.ParseLenient | ecomarket-rag-assistant/src/agent_tools.py:145 | for every valid date, `%m` and `%d` accept zero-padded, unpadded and (for the day) space-padded fields; a space-padded month below 10 is rejected |
| Dates.ParseExamples | ecomarket-rag-assistant/src/agent_tools.py:145 | concrete readings: one-digit fields accepted; 29 February of a common year, day 32 and trailing text rejected |
| Dates.OrdinalNextDay | ecomarket-rag-assistant/src/agent_tools.py:147 | consecutive calendar days have consecutive ordinals |
| Dates.OrdinalAddDays | ecomarket-rag-assistant/src/agent_tools.py:147 | the date n days later has an ordinal n higher, so ordinal differences count days |
| Dates.TimedeltaDaysIsOrdinalDifference | ecomarket-rag-assistant/src/agent_tools.py:145-147 | `(now - delivery).days` is the number of calendar days between the two dates, whatever the time of day, and negative for a future delivery |
| Dates.TimeOfDay | ecomarket-rag-assistant/src/agent_tools.py:236-237 | the time of day is six digits |
| Dates.TimestampSuffix | ecomarket-rag-assistant/src/agent_tools.py:236-237 | the last six characters of `strftime("%Y%m%d%H%M%S")` are HHMMSS |
| Dates.TimeOfDayInjective | ecomarket-rag-assistant/src/agent_tools.py:236-237 | two clocks have the same HHMMSS exactly when hour, minute and second agree |
| AgentTools.Scan | ecomarket-rag-assistant/src/agent_tools.py:41 | `next(...)`/`any(...)` returns the first element the test accepts, with every earlier one rejected; None exactly when all are rejected; an exception comes from the first element whose test raised |
| AgentTools.FindOrder | ecomarket-rag-assistant/src/agent_tools.py:41 | the result is the first dictionary whose `tracking_number` is the id, every earlier order being a dictionary with another number; None exactly when every order is a dictionary with another number; an exception is AttributeError, raised by a non-dictionary met before any match |
| AgentTools.FindOrderFirst | ecomarket-rag-assistant/src/agent_tools.py:41 | an order with the id preceded only by other orders is the one found, so the first of duplicate ids is the one every tool uses |
| AgentTools.FindProduct | ecomarket-rag-assistant/src/agent_tools.py:116-119 | the result is the first dictionary whose `nombre` equals the requested name ignoring case, every earlier product being a dictionary named otherwise; None exactly when every product is a dictionary with a string name other than the requested one; an exception is AttributeError, raised by a product met before any match that is not a dictionary or whose `nombre` is not a string |
| AgentTools.ProductNames | ecomarket-rag-assistant/src/agent_tools.py:76 | the list of names succeeds exactly when every product is a dictionary, and holds each product's `nombre` (None when absent) in order |
| AgentTools.ConsultarEstadoPedido | ecomarket-rag-assistant/src/agent_tools.py:41-77 | an answer comes only when the order search does not raise, and for a found order an exception comes exactly from iterating `productos`, reading a product that is not a dictionary, or the name search; `existe` is true exactly when an order was found; unknown id gives the not-found answer; a found order reports delivered exactly when `estado` is "Entregado", echoes `estado`, carrier, destination and `fecha_entrega_real` (default ""), never a return in progress; no product asked means `producto_existe` is true |
| AgentTools.UnknownOrderStatus | ecomarket-rag-assistant/src/agent_tools.py:41-49 | no order with the id: `existe`, `fue_entregado` and `devolucion_en_progreso` are false and the error names the id |
| AgentTools.FoundOrderProducts | ecomarket-rag-assistant/src/agent_tools.py:52-77 | for a found order whose products are dictionaries the lookup succeeds, `existe` is true, `productos` lists the names in order whether or not a product is asked, a missing or empty product gives `producto_existe` true, and a product asked for among string names is present exactly when some name matches ignoring case |
| AgentTools.ProductHit | ecomarket-rag-assistant/src/agent_tools.py:62-65 | over a well-formed product list the name search never raises and finds a product exactly when some name matches ignoring case |
| AgentTools.ApplyPolicy | ecomarket-rag-assistant/src/agent_tools.py:129-198 | an eligible verdict has non-negative remaining days, records the reason, and chooses priority pickup exactly for "dañado_transporte"; a rejection has no category, days or recorded reason |
| AgentTools.VerificarElegibilidadProducto | ecomarket-rag-assistant/src/agent_tools.py:104-198 | an unknown order is rejected as "Pedido … no encontrado" with no steps; an eligible answer has non-negative remaining days, the caller's reason and priority pickup exactly for transport damage |
| AgentTools.UnknownProductRejected | ecomarket-rag-assistant/src/agent_tools.py:114-127 | a product not in a found order is rejected before any policy rule, with no category and no steps |
| AgentTools.FoundProductJudgedByPolicy | ecomarket-rag-assistant/src/agent_tools.py:114-135 | the first product whose name matches is judged by the policy on its own `categoria` (default "") and `dev_aceptada` (default False) |
| AgentTools.CategoryRuleWins | ecomarket-rag-assistant/src/agent_tools.py:129-141 | a non-returnable category or a falsy `dev_aceptada` is rejected with exactly the one support step, whatever the date (even an unreadable one) and condition |
| AgentTools.InvalidDateRejected | ecomarket-rag-assistant/src/agent_tools.py:143-162 | past rule 1, an unparseable delivery date is rejected with "Fecha de entrega inválida" and no steps |
| AgentTools.WindowExpiredRejected | ecomarket-rag-assistant/src/agent_tools.py:143-155 | more than 30 days after delivery the return is rejected with the elapsed day count in the reason |
| AgentTools.EligibleExactly | ecomarket-rag-assistant/src/agent_tools.py:143-198 | past rules 1 and 2, the product is eligible exactly when at most 30 days elapsed (30 included) and it is not "usado"; remaining days are 30 minus elapsed; transport damage gives priority pickup and its steps, anything else home pickup and its steps |
| AgentTools.RmaIdFormat | ecomarket-rag-assistant/src/agent_tools.py:236-237 | the RMA id is "RMA-", the year, "-" and HHMMSS |
| AgentTools.RmaIdCollision | ecomarket-rag-assistant/src/agent_tools.py:235-237 | two ids are equal exactly when the year and the hour, minute and second agree: ids are not unique |
| AgentTools.RmaParts | ecomarket-rag-assistant/src/agent_tools.py:237 | an id splits back into its year and its six-character time |
| AgentTools.IssueLabel | ecomarket-rag-assistant/src/agent_tools.py:235-284 | a label carries the RMA id, the PDF URL built from it, the ISO timestamp, status "Iniciado", the order id and the product |
| AgentTools.LabelPickup | ecomarket-rag-assistant/src/agent_tools.py:240-283 | priority pickup exactly when asked for; 24-hour window for priority, 24-48 hours for home; carrier is the order's or "EcoExpress" |
| AgentTools.LabelNamesCarrier | ecomarket-rag-assistant/src/agent_tools.py:249-265 | the customer instructions are the text for the pickup kind, and the carrier's name appears in them right after the fixed opening |
| AgentTools.InstructionsNameCarrier | ecomarket-rag-assistant/src/agent_tools.py:249-265 | the instructions of either pickup kind open with their fixed text followed by the carrier's name |
| AgentTools.LabelContactDefaults | ecomarket-rag-assistant/src/agent_tools.py:242-281 | the customer, address and reason are the caller's when non-empty, otherwise the order's `cliente`/`destino` or the fixed fallbacks |
| AgentTools.GenerarEtiquetaDevolucion | ecomarket-rag-assistant/src/agent_tools.py:227-284 | an unknown order gets the error and `rma_id` None; a found order gets the label issued from its record |
| IngestData.ExtendTwice | ecomarket-rag-assistant/src/ingest_data.py:206-207 | appending two batches of entries is appending their concatenation |
| IngestData.ReadOrderFallbacks | ecomarket-rag-assistant/src/ingest_data.py:90-94 | reading an order raises only for a falsy `destino` with a truthy `customer` that is not a dictionary; each field is its first truthy key (tracking_number/tracking/order_id, estado/status, destino/customer.city, transportadora/carrier, fecha_estimada/estimated_delivery) |
| IngestData.OrderTextUnstripped | ecomarket-rag-assistant/src/ingest_data.py:97-103 | `.strip()` never changes an order description, which starts with "Pedido " and ends with "." |
| IngestData.OrderTextBare | ecomarket-rag-assistant/src/ingest_data.py:97-103 | with no truthy destination, carrier or estimated date, the text is "Pedido {tracking}: {estado}." |
| IngestData.ProductEntry | ecomarket-rag-assistant/src/ingest_data.py:117-132 | a product's metadata holds its tracking number, its name and category (Spanish key first, then English) and the truthiness of `dev_aceptada`; its text is built from exactly those recorded values |
| IngestData.ProductTextStatesFlag | ecomarket-rag-assistant/src/ingest_data.py:118-132 | a product text opens with "Producto: " and the name, ends with "acepta devoluciones.", and ends with "NO acepta devoluciones." exactly when returns are not accepted |
| IngestData.DevAceptadaFallback | ecomarket-rag-assistant/src/ingest_data.py:120 | `dev_aceptada` is used when present, otherwise `returnable`, otherwise false |
| IngestData.ProductEntries | ecomarket-rag-assistant/src/ingest_data.py:117-132 | the product loop yields one entry per product, in order, and succeeds only if every product is a dictionary |
| IngestData.AssembleShape | ecomarket-rag-assistant/src/ingest_data.py:105-151 | an order's entries are its status entry, its product entries in order, then the policy entry exactly when a product is perishable |
| IngestData.OrderEntriesShape | ecomarket-rag-assistant/src/ingest_data.py:97-151 | each order contributes one status entry first (with the order text), one product entry per product, and a last perishable-policy entry exactly when some product's category is "Alimento perecedero" |
| IngestData.AppendOrder | ecomarket-rag-assistant/src/ingest_data.py:88-151 | the loop body appends exactly the order's entries to both lists, or raises the order's exception |
| IngestData.AppendProducts | ecomarket-rag-assistant/src/ingest_data.py:117-132 | the inner loop appends exactly the product entries to both lists, or raises at the first product that is not a dictionary |
| IngestData.OrdersPrefixRaised | ecomarket-rag-assistant/src/ingest_data.py:88 | an exception raised by an earlier order ends the whole loop with that exception |
| IngestData.OneStatusPerOrder | ecomarket-rag-assistant/src/ingest_data.py:105-114 | exactly one of an order's entries is an `order_status` entry |
| IngestData.StatusPerOrder | ecomarket-rag-assistant/src/ingest_data.py:88-151 | a completed order loop holds exactly one status entry per order, so at least as many entries as orders |
| IngestData.AsCorpus | ecomarket-rag-assistant/src/ingest_data.py:86-154 | a loader's lists have equal length |
| IngestData.LoadPedidos | ecomarket-rag-assistant/src/ingest_data.py:70-154 | `load_pedidos` raises FileNotFoundError, ValueError("pedidos.json inválido: …") or ValueError for a non-list, otherwise returns the order loop's entries with `texts` and `metas` of equal length |
| IngestData.FaqEntry | ecomarket-rag-assistant/src/ingest_data.py:172-189 | a FAQ dictionary gives one entry exactly when its question and answer are non-empty; the category is never empty; the text is "Pregunta frecuente: " with the question read through its fallbacks, then "\nRespuesta: " with the answer |
| IngestData.FaqFallbacks | ecomarket-rag-assistant/src/ingest_data.py:173-175 | the question is `pregunta` when truthy, else `question` when truthy, else ""; likewise the answer (`respuesta`, `answer`, "") and the category (`categoria`, `category`, "General") |
| IngestData.FaqsPrefixRaised | ecomarket-rag-assistant/src/ingest_data.py:172 | an exception raised by an earlier FAQ ends the loop with that exception |
| IngestData.LoadFaqs | ecomarket-rag-assistant/src/ingest_data.py:156-192 | `load_faqs` returns nothing for a missing file, raises the two ValueErrors, otherwise returns the FAQ loop's entries with equal-length lists |
| IngestData.FaqsKept | ecomarket-rag-assistant/src/ingest_data.py:178-180 | a list of FAQ dictionaries yields one entry per answered FAQ and none for the rest |
| IngestData.IngestAll | ecomarket-rag-assistant/src/ingest_data.py:195-228 | `main` gathers orders, then FAQs, then PDF chunks, skipping any loader that raised, and raises "No hay textos para indexar…" exactly when nothing was gathered |
| IngestData.ExtendIfLoaded | ecomarket-rag-assistant/src/ingest_data.py:204-217 | a loader's lists are appended when it returned; a loader that raised adds nothing |
| IngestData.AsCorpusContribution | ecomarket-rag-assistant/src/ingest_data.py:204-225 | a loader's corpus holds exactly what it contributes to `main`, and one that raised contributes nothing |
| IngestData.NothingToIndex | ecomarket-rag-assistant/src/ingest_data.py:227-228 | `main` refuses exactly when every source raised or produced no entry |
| IngestData.OrdersSuffice | ecomarket-rag-assistant/src/ingest_data.py:203-228 | a non-empty order file that serialises is enough for ingestion to go ahead, and its status entries come first, one per order |
| IngestDirect.IngestDirect | ecomarket-rag-assistant/ingest_direct.py:20-103 | the script raises the loader's exception unchanged, raises "No hay textos para indexar (verifica pedidos.json)." for an empty result, otherwise returns the order loop's entries; it refuses for lack of texts exactly when the file is an empty list |
| IngestDirect.EmptyOnlyWithoutOrders | ecomarket-rag-assistant/ingest_direct.py:37-103 | the order loop yields no entry exactly when the file holds an empty list |
| IngestDirect.PedidosNeverNoTexts | ecomarket-rag-assistant/ingest_direct.py:21-33 | no loading error is the empty-result error |
| IngestDirect.OrderNeverValueError | ecomarket-rag-assistant/ingest_direct.py:37-100 | an order that cannot be serialised raises AttributeError or TypeError, never ValueError |
| IngestDirect.OrdersNeverValueError | ecomarket-rag-assistant/ingest_direct.py:37-100 | the order loop never raises ValueError |
| Agent.UsedTools | ecomarket-rag-assistant/src/agent.py:195-198 | there are never more tools listed than steps |
| Agent.UsedToolsAppend | ecomarket-rag-assistant/src/agent.py:195-198 | the tools of two runs of steps are the first run's followed by the second's, so the list keeps step order |
| Agent.UsedToolsMembers | ecomarket-rag-assistant/src/agent.py:195-198 | a name is listed exactly when some step's action is an `AgentAction` with that tool |
| Agent.UsedToolsNone | ecomarket-rag-assistant/src/agent.py:195-198 | no tool is listed exactly when no step is a tool call |
| Agent.RunOutcomes | ecomarket-rag-assistant/src/agent.py:180-210 | `run` succeeds exactly when the executor answered; on success the response is the output ("" when absent); on failure there are no tools and no steps, the error is the message, and the response is the fixed apology followed by the message |
| Agent.JoinAppend | ecomarket-rag-assistant/src/agent.py:235 | joining two non-empty lists puts one ", " between their joins |
| Agent.JoinLast | ecomarket-rag-assistant/src/agent.py:235 | the last name follows the join of the others after one ", " |
| Agent.Badge | ecomarket-rag-assistant/src/agent.py:235-236 | a list of strings always gives a badge |
| Agent.BadgeOfNames | ecomarket-rag-assistant/src/agent.py:235-236 | the badge of a list of names is the fixed prefix, the names joined by ", ", and "*" |
| Agent.AddBadge | ecomarket-rag-assistant/src/agent.py:236 | `response +=` succeeds exactly on a string or a list and keeps that kind; a string keeps its text and gains the badge after it; a list keeps its items and gains one one-character string per badge character |
| Agent.FailureApologises | ecomarket-rag-assistant/src/agent.py:222-230 | a falsy or missing `success` shows the apology header, then `str(response)`, then the support footer, and nothing else |
| Agent.MissingSuccessFails | ecomarket-rag-assistant/src/agent.py:225 | a result without `success` is shown as a failure |
| Agent.NoToolsUnchanged | ecomarket-rag-assistant/src/agent.py:232-238 | a success with no tools shows the response unchanged |
| Agent.ToolsBadge | ecomarket-rag-assistant/src/agent.py:232-238 | a success with tools shows the response, then "\n\n---\n🔧 *Acciones realizadas: ", the tools joined by ", ", then "*" |
| Agent.AsDictReads | ecomarket-rag-assistant/src/agent.py:191-210 | the dictionary `run` returns reads back its `success`, `response` and `used_tools` |
| Agent.ShownAfterRun | ecomarket-rag-assistant/src/agent.py:170-238 | after an exception the customer sees the apology around the error message; after an answer without tool calls, the answer; otherwise the answer and the badge of the tools called, in step order |

## Left out

- File reads and `json.load`: every data file arrives already read as `DataFile`, which is missing, undecodable with a message, or decoded. `_cargar_pedidos` and its fallback to `[]` on a read error are replaced by the `pedidos` parameter of each tool.
- `load_pdf_policies` (ingest_data.py:26-68): PDF loading and the text splitter are library code. Its result enters `IngestAll` as a parameter, either the finished list of chunk entries or the exception.
- Embeddings, the FAISS index and writing `meta.jsonl`: library calls and output only. Both ingest models stop at the lists that would be indexed.
- The language model, the retriever, the prompt and the ReAct executor (agent.py:36-168): the executor's answer enters `Agent.Run` as an `ExecOutcome`. Deciding which tools to call is left to the language model, and nothing deterministic about that choice is modelled.
- The `print` calls and the exit status of the scripts: console output only.
- `generar_etiqueta_devolucion` reads `datetime.now()` three times (agent_tools.py:236, 237 and 276), and the three readings may differ in any field. If a second boundary passes between them, `fecha_generacion` disagrees with the HHMMSS of the RMA id; midnight changes the date, and New Year the year in the id. The model reads one clock value for all three, so these disagreements are not modelled.
- PyValues.Repr: Python's `repr` decides printability from the Unicode database; the model escapes only control characters and the non-printable Latin-1 characters, and writes every character above U+00FF as itself.
- PyValues.EscapeChar: Python's `repr` decides printability from the Unicode database; this function escapes only control characters and the non-printable Latin-1 characters, and writes every character above U+00FF as itself.
- PyValues.ReprPlainString: Python's `repr` decides printability from the Unicode database, so a string this lemma treats as plain may hold a character above U+00FF that Python would escape.
- PyValues.Find: `json.load` keeps the last binding of a key repeated in one object, whereas `Find` returns the first. The two agree for objects with distinct keys (`PyValues.DistinctKeys`, `PyValues.FindBinding`), which is how the model reads every decoded object.
- AgentTools.RmaIdCollision: identifiers are not claimed to be unique. The lemma shows exactly when two of them collide.
- PyValues.Lower: `str.lower()` is modelled for ASCII and Latin-1 capitals only. Other Unicode case mappings, including those that change the length, are left out.
- Dates.ParseDate: only ASCII digits are accepted, whereas Python's `\d` also matches other Unicode decimal digits. Years are limited to four digits, as `%Y` reads them.
- Floating-point values in the JSON files are not in the `Json` datatype, so a float field is not modelled.
- `intermediate_steps` appears in `RunResult` but not in the dictionary view `AsDict`. Its elements are library objects, and `format_response` never reads them.
- Agent.AddBadge: a list-valued `response` grows by the badge's characters, as `list += str` does in Python. The model covers only lists, strings and the TypeError case.
- The eligibility check does not read the order's `estado`. The delivery date is the caller's argument, so an undelivered order can be judged eligible. The model keeps this behaviour.
