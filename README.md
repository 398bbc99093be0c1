# FIAS-TTHH attendance reconciliation, modelled in Dafny

FIAS-TTHH is a browser tool that turns two attendance exports into a list of
attendance events for the employees of the FIAS roster. The two exports are a
Microsoft Teams sheet and a biometric terminal sheet. This project models the
three parts of the tool that make decisions:

- **The reconciliation pipeline** (`script.js`).
  - Each Teams row is matched to an active employee by name, in stages. Each
    biometric row is matched by numeric id.
  - Each row yields events: up to two per Teams row (entry, then exit), at
    most one per biometric row. A row that names nobody on the roster yields
    an error at line `index + 2`.
  - `procesarArchivos` empties the accumulators, then runs Teams before
    Biometric. `mostrarResultados` sorts the events by project, full name,
    date and hour.
  - `generarResumenExport` and `generarEstadisticas` count the events per
    project and per source. `registrarActividad` keeps a log of at most 50
    entries, newest first.
- **Roster administration** (`admin.js`).
  - Employees are created (with a duplicate-code check), edited, activated,
    deactivated and deleted. Each operation updates both `funcionarios` and
    the filtered list.
  - Records are validated, including an e-mail check by regular expression.
  - The tool proposes the next id, employee code and project id.
  - The list is filtered and shown 20 rows per page.
- **The configuration tree** (`config.js`).
  - `mergeConfiguraciones` is a recursive deep merge.
  - `obtener` reads a dotted path; `establecer` writes one, creating missing
    intermediates.
  - `guardarDesdeUI` spreads form values over the configuration.
  - Two helpers convert between `HH:MM` and `HH:MM:SS`.

## Layout

| file | module | what |
|---|---|---|
| wrappers.dfy | Wrappers | `Option` |
| text.dfy | Text | JavaScript string built-ins: `trim`, `toLowerCase` (ASCII), `split`, `indexOf`, `includes`, `replace`, `padStart`, `parseInt`, `String(n)`, the trailing-digits regular expression |
| roster.dfy | Roster | employees, projects, `findIndex`/`filter` by id, code uniqueness |
| identity.dfy | Identity | `buscarFuncionarioPorId`, `buscarFuncionarioPorNombre` |
| adapters.dfy | Adapters | the per-row logic of both adapters as functions, and the run of a whole file |
| ordering.dfy | Ordering | the sort comparator and a stable insertion sort as functions |
| summary.dfy | Summary | the tallies of `generarEstadisticas` and the sheet of `generarResumenExport` as functions |
| marcaciones.dfy | Marcaciones | the page state of `script.js` as a class (`processedData`, `errors`, `activityLog`) whose methods loop over the rows, sort in place and count |
| admin.dfy | Admin | validation, code and id generators, filter and paging, and the page state of `admin.js` as a class |
| config.dfy | Config | a JSON datatype, merge, path get and set, the `guardarDesdeUI` spreads, and `ConfiguracionSistema` as a class |

Most operations come in two forms:

- a **method** written the way the source works: a loop over the rows, a sort
  in place, a walk down the configuration path;
- a **function** that states what the method computes.

Each method's `ensures` ties it to its function. The lemmas then prove the
properties of that function.

Modelling choices:

- The timestamp parser `parsearFechaHora` is a function-valued parameter
  `parse: string -> Option<Stamp>`.
- Spreadsheet rows are `map<string, string>`. A cell is truthy when it is
  present and not empty.

## Model

| member | source | states |
|---|---|---|
| `Roster.IndexOfId` | admin.js:567 | the index found holds the id and no earlier entry does; `None` only when no entry holds it |
| `Roster.WithoutId` | admin.js:685 | an entry is kept exactly when it was there and has another id; never longer than the input |
| `Roster.WithoutIdConcat` | admin.js:685 | `filter` keeps order and multiplicity: filtering a concatenation is concatenating the filtered parts |
| `Roster.WithoutIdSingle` | admin.js:685 | a single entry is kept exactly when its id differs |
| `Text.TrimStartBorde` | admin.js:524 | `trimStart` removes exactly the leading white space: the result is a suffix and starts with no white space |
| `Text.TrimEndBorde` | admin.js:524 | `trimEnd` removes exactly the trailing white space |
| `Text.TrimBordes` | script.js:311 | `trim()` is empty exactly when the text is all white space; otherwise it neither starts nor ends with white space |
| `Text.LowerChar` | script.js:313 | `A`–`Z` map to `a`–`z` (code plus 32), every other character stays as it is, so the result is never an upper-case ASCII letter |
| `Text.Lower` | script.js:313 | `toLowerCase` keeps the length and folds each character |
| `Text.Split` | config.js:291 | `split('.')` gives at least one part, no part holds the separator, and joining the parts gives back the text |
| `Text.IndexFrom` | admin.js:1025 | the position found is an occurrence at or after the start, and there is none between the start and it |
| `Text.IndexOf` | admin.js:1025 | `indexOf` gives the first occurrence, or `None` when the pattern never occurs |
| `Text.ReplaceFirst` | admin.js:1025 | `replace` with a string pattern: the text before the first occurrence, then the replacement, then the text after that occurrence; no occurrence means no change |
| `Text.StrLtIrreflexive` | script.js:358-369 | the character order on strings is irreflexive |
| `Text.StrLtTransitive` | script.js:358-369 | the character order on strings is transitive |
| `Text.StrLtTotal` | script.js:358-369 | any two different strings are ordered one way or the other |
| `Text.StrLtAsymmetric` | script.js:358-369 | the character order on strings is asymmetric |
| `Text.NatToString` | admin.js:1026 | `toString` of a natural number: only digits, no leading zero unless the number is 0 |
| `Text.NatToStringRoundTrip` | admin.js:1026 | reading the digits of `toString(n)` gives back `n` |
| `Text.NatToStringInjective` | admin.js:1026 | different numbers get different digit strings |
| `Text.LeadingDigits` | script.js:262 | the longest prefix of digits that `parseInt` reads |
| `Text.TrailingDigitsSufijo` | admin.js:1022 | the capture of `/(\d+)$/` is a suffix of digits preceded by a non-digit or by nothing, so it is the longest one |
| `Text.LeadingHexDigits` | script.js:262 | the longest prefix of hexadecimal digits that `parseInt` reads after `0x` |
| `Text.ParseInt` | script.js:262 | `parseInt` without a radix gives `NaN` (`None`) exactly when no digit follows the optional white space and sign, where after a `0x`/`0X` prefix the digits are hexadecimal |
| `Text.ParseIntHexadecimal` | script.js:262 | `parseInt("0x1A")` is 26 |
| `Text.ParseIntHexadecimalVacio` | script.js:262 | `parseInt("0x")` is `NaN` |
| `Text.ParseIntCeroInicial` | script.js:262 | a leading zero alone does not change the radix: `parseInt("017")` is 17 |
| `Text.ParseIntRoundTrip` | script.js:306 | `parseInt(String(n)) === n` for every integer, so a numeric id survives being rendered |
| `Text.PadStartRelleno` | admin.js:1026 | `padStart(w, c)` gives `max(w, length)` characters: the text at the end, only `c`s in front |
| `Text.DigitsValueLeadingZeros` | admin.js:1024 | leading zeros do not change the number `parseInt` reads from a digit run |
| `Identity.Primero` | script.js:306 | `find`'s index: the first entry from the start that meets the rule, or none when no entry does |
| `Identity.Buscar` | script.js:316-318 | `find(rule && activo)`: an active roster entry meeting the rule; nothing exactly when no entry meets it |
| `Identity.BuscarFuncionarioPorId` | script.js:305-307 | a result is an active roster entry whose id equals `parseInt(id)`; nothing exactly when there is none; nothing when `parseInt` gives `NaN` |
| `Identity.EtapaPartes` | script.js:323-332 | the word stage returns only active roster entries |
| `Identity.EtapaPartesNinguna` | script.js:325-332 | the word stage finds nobody exactly when no word longer than two characters occurs in any active full name |
| `Identity.EtapaPartesPrimera` | script.js:325-332 | when it finds someone, it is the first active match of the first word longer than two characters that matches anyone |
| `Identity.BuscarFuncionarioPorNombre` | script.js:310-350 | every result is an active roster entry |
| `Identity.BuscarPorNombreEtapas` | script.js:311-346 | blank input finds nobody; an exact case-folded full-name match wins; failing that the word stage decides when it finds someone; failing both, the given/family-name fallback with the first word decides |
| `Identity.InactivosNuncaCoinciden` | script.js:305-350 | on a roster with no active employee, neither lookup ever finds anyone |
| `Adapters.Celda` | script.js:208 | a cell is truthy exactly when it is present and not empty, and then it is the cell's text |
| `Adapters.PrimeraCelda` | script.js:275 | `a \|\| b \|\| c`: the cell of the FIRST column that is present and non-empty, every earlier column being absent or empty; nothing exactly when every column is absent or empty |
| `Adapters.ParsearFechaHora` | script.js:721-722 | an absent or empty argument gives `null`; a non-empty one gives exactly what the parser gives |
| `Adapters.EventoTeamsContrato` | script.js:208-224 | a Teams time column yields one event exactly when it is present and parses, with the column's type, the Teams source and the employee's identity, and its date and hour are those the column's time parses to |
| `Adapters.TeamsRowContrato` | script.js:191-243 | unresolved name: one `Teams` error at line `index + 2` naming the input, no event; resolved: at most two events, Entrada before Salida, each only when its column parses, no error; the Entrada event's date and hour are the parsed `Hora de entrada`, the Salida event's the parsed `Hora de salida` |
| `Adapters.IdUsuarioParsed` | script.js:262 | when `ID de Usuario` parses to a non-zero number, the looked-up id parses back to that number |
| `Adapters.TipoBiometrico` | script.js:286 | the event type is `Evento` when that cell is non-empty, else `Estado` when that one is, else `Marcación`; never empty |
| `Adapters.BiometricoRowContrato` | script.js:260-291 | at most one event or one error, never both; an unresolved id gives one `Biométrico` error at line `index + 2`; an unparseable time gives nothing |
| `Adapters.FilaCounts` | script.js:191-301 | one row adds at most one error and at most two (Teams) or one (Biometric) entries |
| `Adapters.FilaFacts` | script.js:191-301 | every error of a row has the row's source tag and line `index + 2`; every event has the source tag and the resolved employee's identity |
| `Adapters.Resuelto` | script.js:195 | the employee a row resolves to, by name or by id, is an active roster entry |
| `Adapters.ResolverActivos` | script.js:263 | both adapters' lookups only ever return active roster employees |
| `Adapters.Filas` | script.js:191 | one outcome per row |
| `Adapters.RunStep` | script.js:191 | processing one more row appends exactly that row's events and errors |
| `Adapters.ConcatCounts` | script.js:191-253 | per-row bounds add up over a file |
| `Adapters.ConcatExclusive` | script.js:260-301 | rows with at most one entry each add up to at most one entry per row |
| `Adapters.ConcatEventOrigin` | script.js:191-253 | every event of a file comes from one of its rows |
| `Adapters.ConcatErrors` | script.js:191-253 | errors appear in strictly increasing line order, each at its row's line, and none is lost |
| `Adapters.RunBounds` | script.js:188-302 | a file of `n` rows gives at most `n` errors, at most `2n` Teams events, and at most `n` Biometric events plus errors |
| `Adapters.RunEventsActive` | script.js:188-302 | every event of a file carries the source tag and the identity of an active roster employee |
| `Adapters.FilasErrores` | script.js:197-204 | row by row: an error exactly when the identity does not resolve, tagged and at line `index + 2` |
| `Adapters.RunErrors` | script.js:197-204 | every recorded error belongs to an unresolved row, at its line, and lines strictly increase |
| `Adapters.RunErrorsComplete` | script.js:265-272 | every row whose identity does not resolve has its error recorded |
| `Ordering.AntesIrreflexivo` | script.js:358-369 | no event comes before itself |
| `Ordering.AntesAsimetrico` | script.js:358-369 | the comparator never puts two events each before the other |
| `Ordering.AntesTransitivo` | script.js:358-369 | the comparator's order is transitive |
| `Ordering.AntesTotal` | script.js:358-369 | two events neither of which comes first agree on project, name, date and hour |
| `Ordering.Posicion` | script.js:358 | the stable insertion point: every element before it is not after `x`, and `x` comes before the element at it |
| `Ordering.InsertarOrdenado` | script.js:358 | inserting into an ordered list keeps it ordered |
| `Ordering.InsertarPermutacion` | script.js:358 | inserting adds exactly one element to the multiset |
| `Ordering.OrdenarOrdenado` | script.js:358-369 | the sorted list is non-decreasing in (project, name, date, hour) |
| `Ordering.OrdenarPermutacion` | script.js:358-369 | the sorted list is a permutation of the input |
| `Ordering.OrdenarCorrecto` | script.js:358-369 | ordered and a permutation together |
| `Ordering.InsertarMismaClave` | script.js:358 | an event placed after its own key's events goes last among them |
| `Ordering.InsertarOtraClave` | script.js:358 | placing an event of another key leaves a key's events as they were |
| `Ordering.InsertarEstable` | script.js:358 | inserting into an ordered list appends the event to its key's events and leaves other keys alone |
| `Ordering.OrdenarEstable` | script.js:358-369 | the sort is stable: events with equal keys keep their relative order |
| `Ordering.OrdenarIdempotente` | script.js:358-369 | an already ordered list is left as it is |
| `Summary.IndiceCuenta` | script.js:438 | the tally entry found has the key; `None` exactly when no entry has it |
| `Summary.TallyDistinto` | script.js:437-442 | the tally's keys are pairwise different |
| `Summary.TallyClaves` | script.js:437-442 | a key is in the tally exactly when some item has it |
| `Summary.TallyCuentas` | script.js:437-442 | each entry holds the number of items with its key |
| `Summary.TallySuma` | script.js:437-442 | the counts add up to the number of items |
| `Summary.Proyectos` | script.js:437 | the projects of the events, one per event, in order |
| `Summary.Fuentes` | script.js:470 | the sources of the events, one per event, in order |
| `Summary.IndiceProyecto` | script.js:586 | the summary row found is the project's; `None` exactly when no row is |
| `Summary.PorProyectoDistinto` | script.js:585-604 | one row per project: the rows' projects are pairwise different |
| `Summary.PorProyectoCubre` | script.js:585-604 | a project has a row exactly when some event belongs to it |
| `Summary.PorProyectoAgregado` | script.js:585-604 | each project row holds exactly the counters of that project's events |
| `Summary.PorProyectoSuma` | script.js:585-628 | the project rows' counters add up to the totals row |
| `Summary.AgregadoAusente` | script.js:585-604 | a project with no events gets an all-zero row |
| `Summary.AgregadoAcotado` | script.js:597-603 | every counter is at most the row's total, and no event is counted as both Teams and Biometric |
| `Summary.Filtradas` | script.js:624-627 | `filter` keeps exactly the events meeting the condition, never more than there are |
| `Summary.FiltradasAlFinal` | script.js:624-627 | an event appended at the end joins the filtered events exactly when it meets the condition |
| `Summary.TotalesCuentan` | script.js:620-628 | the totals row's total is the number of events, and its entry, exit, Teams and biometric counters are the lengths of the four `filter`s |
| `Summary.ResumenCorrecto` | script.js:580-631 | the last row is `TODOS` with total `processedData.length`; project totals add up to it; entries and exits are at most the total in every row |
| `Summary.TallyProyectosCoincide` | script.js:437-442 | the per-project tally and the summary sheet list the same projects in the same order with the same totals |
| `Marcaciones.Registrar` | script.js:659-675 | the new entry goes first, the old ones follow in order, and the log never exceeds 50 entries |
| `Marcaciones.RegistrarRecientes` | script.js:667-672 | after any run of registrations the log has at most 50 entries, the latest ones first, newest first |
| `Marcaciones.GetColorForIndex` | script.js:756-762 | the colour is the palette entry at `index % 8` |
| `Marcaciones.ColoresPeriodicos` | script.js:761 | the palette repeats every eight indices |
| `Marcaciones.PaletaDistinta` | script.js:757-760 | the eight palette entries are pairwise different |
| `Marcaciones.ColoresConsecutivosDistintos` | script.js:756-762 | eight consecutive indices get eight different colours |
| `Marcaciones.ColoresClaves` | script.js:372-375 | the colour table has an entry for exactly the project ids |
| `Marcaciones.ColoresValores` | script.js:373-375 | an id's colour is that of the last project with the id: own colour, else the palette colour of its position |
| `Marcaciones.ColorDe` | script.js:372-375 | the table's colour when the project has a non-empty one; `#cccccc` when it is missing or empty |
| `Marcaciones.ArchivoEtiquetas` | script.js:153-163 | an absent file adds no event and no error; every event and error of a file carries that file's source tag |
| `Marcaciones.FuentesEnOrden` | script.js:153-163 | in the concatenation, every event of the first source comes before every event of the second |
| `Marcaciones.TiposEnOrden` | script.js:153-163 | the same for errors |
| `Marcaciones.EventosEnOrden` | script.js:150-163 | Teams events come before Biometric events in insertion order, each belonging to an active employee |
| `Marcaciones.ErroresEnOrden` | script.js:150-163 | Teams errors come before Biometric errors |
| `Marcaciones.OrdenFinalEstable` | script.js:150-169 | after the sort, events sharing a key are the Teams file's, then the Biometric file's, each in row order |
| `Marcaciones.Pagina.constructor` | script.js:19-41 | the page starts with the loaded roster and projects, no events, no errors and an empty log |
| `Marcaciones.Pagina.ProcesarTeams` | script.js:188-254 | appends exactly what the Teams rows yield, looked up by name, after the previous contents |
| `Marcaciones.Pagina.ProcesarBiometrico` | script.js:257-302 | appends exactly what the Biometric rows yield, looked up by id, after the previous contents |
| `Marcaciones.Pagina.MostrarResultados` | script.js:358-369 | sorts `processedData` in place into the stable sorted permutation of its previous contents |
| `Marcaciones.Pagina.GenerarEstadisticas` | script.js:434-475 | the per-project and per-source tallies of the current events |
| `Marcaciones.Pagina.GenerarResumenExport` | script.js:580-631 | the summary sheet of the current events, nothing changed |
| `Marcaciones.Pagina.RegistrarActividad` | script.js:659-675 | the log becomes `Registrar` of the old log and stays within its bound |
| `Marcaciones.Pagina.CargarArchivos` | script.js:149-163 | the accumulators are emptied, then Teams is processed, then Biometric, each only if chosen |
| `Marcaciones.Pagina.ProcesarArchivos` | script.js:141-185 | the new events are the sorted events of the chosen files alone, the errors are those of this run, and the run is logged |
| `Marcaciones.Pagina.ColoresProyectos` | script.js:372-375 | the loop builds the colour table for the project list |
| `Marcaciones.AgruparPorProyecto` | script.js:585-604 | the per-project loop builds exactly the project rows of the summary |
| `Marcaciones.SumarTotales` | script.js:620-628 | the totals loop gives exactly the totals row |
| `Marcaciones.FilaTeams` | script.js:192-244 | one Teams row pushes exactly that row's events and errors |
| `Marcaciones.EventoDeColumna` | script.js:208-224 | one time column pushes its event exactly when present and parsed |
| `Marcaciones.FilaBiometrico` | script.js:261-292 | one Biometric row pushes exactly that row's event or error |
| `Marcaciones.FilasTeams` | script.js:191-253 | the `forEach` over Teams rows pushes every row's events and errors in row order |
| `Marcaciones.FilasBiometrico` | script.js:260-301 | the `forEach` over Biometric rows pushes every row's event or error in row order |
| `Marcaciones.OrdenarPorInsercion` | script.js:358-369 | the insertion sort loop produces the stable sorted permutation |
| `Marcaciones.PosicionUnica` | script.js:358 | the insertion loop stops at the stable insertion point |
| `Marcaciones.Contador` | script.js:437-442 | the counting loop builds the tally of the items |
| `Marcaciones.BuscarCuenta` | script.js:438 | the lookup finds the key's entry, or reports it missing |
| `Marcaciones.BuscarFila` | script.js:586 | the lookup finds the project's row, or reports it missing |
| `Admin.ValidarEmailCorrecto` | admin.js:1052-1055 | the scan accepts exactly the addresses of the shape `/^[^\s@]+@[^\s@]+\.[^\s@]+$/` describes |
| `Admin.ValidarEmailForma` | admin.js:1053 | every accepted address splits into the regular expression's three parts |
| `Admin.FormaValidarEmail` | admin.js:1053 | every address of the three-part shape is accepted |
| `Admin.ValidarFuncionarioExacto` | admin.js:612-632 | a record passes exactly when no message is collected, i.e. no required field is empty and any e-mail given has the address shape |
| `Admin.Opcional` | admin.js:530-531 | `trim() \|\| null`: `null` exactly when the trimmed text is empty, the trimmed text otherwise |
| `Admin.ReemplazarSoloPrimero` | admin.js:593 | replacing keeps the length and touches only the first entry with the id |
| `Admin.CambiarEstadoSoloEstado` | admin.js:638-641 | only `activo` and `fechaActualizacion` of the first employee with the id change; all other entries and fields stay |
| `Admin.SinPrimeroCorrecto` | admin.js:681-684 | `splice` removes the first entry with the id, keeps the rest in order and as a multiset; an unknown id changes nothing |
| `Admin.AgregarPreservaUnicos` | admin.js:544-551 | appending a record whose code nobody has keeps codes unique |
| `Admin.CambiarEstadoPreservaUnicos` | admin.js:638-647 | activating or deactivating keeps codes unique |
| `Admin.SinPrimeroPreservaUnicos` | admin.js:684 | deleting keeps codes unique |
| `Admin.EdicionPuedeDuplicarCodigo` | admin.js:573-593 | editing does not re-check codes: an edit can leave two employees with one code |
| `Admin.Filtrar` | admin.js:171-191 | the filtered list holds exactly the entries that pass the search, project and state controls, and is never longer |
| `Admin.FiltrarConcat` | admin.js:171 | filtering keeps the order: it distributes over concatenation |
| `Admin.FiltrarSinFiltro` | admin.js:173-188 | with every control cleared the whole list passes |
| `Admin.FiltrarEstadosParten` | admin.js:183-188 | the `activo` and `inactivo` selections split the list between them |
| `Admin.TotalPaginas` | admin.js:284 | `Math.ceil(n / 20)`: the fewest pages of 20 that hold `n` entries |
| `Admin.PaginaItems` | admin.js:85-87 | a page shows at most 20 entries |
| `Admin.PaginaContiene` | admin.js:85-87 | entry `i` is on page `i / 20 + 1` at row `i % 20`, and that page is within the page count |
| `Admin.PaginaVacia` | admin.js:85-87 | a page is empty exactly when it lies beyond the page count |
| `Admin.PaginaSiguienteAcotada` | admin.js:283-290 | the page moves by at most one, never below 1, forward only while within the page count, and stays for any other direction |
| `Admin.UltimoCodigo` | admin.js:1016-1017 | the code of the last employee that has one; none exactly when nobody has a code |
| `Admin.NumeradoValor` | admin.js:1026 | the padded number reads back as the number and has at least three digits |
| `Admin.PartidoExiste` | admin.js:1022 | every code splits into a prefix and its trailing digits |
| `Admin.CodigoSinDigitos` | admin.js:1029 | a code without trailing digits gets `-001` appended |
| `Admin.CodigoConDigitos` | admin.js:1023-1026 | corrected generator: a code with trailing digits keeps the text before them, followed by the next number |
| `Admin.CodigoSiguienteIncrementa` | admin.js:1022-1029 | corrected generator: the next code keeps the prefix and ends in one more than the old trailing number, with at least three digits, and those are its trailing digits |
| `Admin.ComoEscritoCoincide` | admin.js:1025 | when the trailing digits occur nowhere earlier in the code, the code as written equals the corrected one |
| `Admin.CodigoCorregidoEjemplo` | admin.js:1015-1030 | the corrected code after `A001-001` is `A001-002` |
| `Admin.CodigoComoEscritoFalla` | admin.js:1025 | as written, the code after `A001-001` is `A-001002` |
| `Admin.MaxId` | admin.js:316 | `Math.max(...ids, 0)`: at least 0, at least every parsed id, and equal to one of them or 0 |
| `Admin.NuevoIdLibre` | admin.js:316 | the proposed id is positive, greater than every parsed employee id, and the least such |
| `Admin.CodigoSiguienteDe` | admin.js:1022-1029 | corrected generator: the code after any code: its trailing number replaced by the next one with at least three digits, or `-001` appended when it has none; the new trailing digits read as that number |
| `Admin.GenerarCodigoCorrecto` | admin.js:1015-1030 | corrected generator (`Admin.GenerarCodigoCorregido`): `FIAS-001` when nobody has a code; otherwise the last code with its trailing number replaced by the next one, at least three digits (or `-001` appended when it has none), and the new code's trailing digits read as that number |
| `Admin.GenerarCodigoComoEscritoCoincide` | admin.js:1015-1030 | the code as written and the corrected code agree whenever the last code's trailing digits occur nowhere earlier in it |
| `Admin.Panel.PropuestaNuevo` | admin.js:316-317 | `nuevoFuncionario` proposes an id nobody has, one past the largest, and the next employee code by the corrected generator; that is the code as written whenever the last code's trailing digits occur nowhere earlier in it |
| `Admin.CandidatoInyectivo` | admin.js:1003-1008 | different attempts try different project ids |
| `Admin.PrimerCandidatoLibre` | admin.js:1003-1011 | the loop ends with a candidate that is not taken, and every earlier candidate is taken |
| `Admin.IdsProyectos` | admin.js:1002 | one id per project, in order |
| `Admin.Panel.constructor` | admin.js:17-34 | the filtered list starts as a copy of the whole list, on page 1 |
| `Admin.Panel.FiltrarFuncionarios` | admin.js:166-195 | the filtered list becomes the passing entries of the whole list, and the page goes back to 1 |
| `Admin.Panel.CambiarPagina` | admin.js:283-293 | the page moves as `cambiarPaginaFunc` says and stays at least 1 |
| `Admin.Panel.ItemsPagina` | admin.js:85-87 | the rows of the current page, at most 20 |
| `Admin.Panel.GuardarFuncionario` | admin.js:519-561 | the record is appended to both lists exactly when it validates and its code is free; otherwise nothing changes; codes stay unique |
| `Admin.Panel.ActualizarFuncionario` | admin.js:564-609 | when the id exists and the edited record validates, it replaces the first entry with the id in both lists; otherwise nothing changes |
| `Admin.Panel.FijarEstado` | admin.js:638-647 | the first entry with the id gets the new state in both lists; an unknown id changes nothing |
| `Admin.Panel.ActivarFuncionario` | admin.js:635-653 | the first employee with the id becomes active, dated today, and the filtered list's entry with the id is replaced by that record; an unknown id changes neither list |
| `Admin.Panel.DesactivarFuncionario` | admin.js:655-673 | the first employee with the id becomes inactive, dated today, and the filtered list's entry with the id is replaced by that record; an unknown id changes neither list |
| `Admin.Panel.EliminarFuncionario` | admin.js:676-691 | the first entry with the id leaves `funcionarios`, every entry with the id leaves the filtered list; an unknown id changes nothing |
| `Admin.Panel.GenerarIdProyecto` | admin.js:1001-1012 | `PROY_NUEVO` when free, otherwise `PROY_NUEVO_k` for the least free `k`; never an existing project id |
| `Config.Merge` | config.js:275-286 | the merged keys are the base's keys plus the override's keys; the values follow from `MergeLiteralYBase`, `MergeHojaPersonalizada` (the override wins at its leaves) and `MergeHojaBase` (base values the override does not reach survive, at any depth) |
| `Config.MergeLiteralYBase` | config.js:279-283 | a non-object override value (falsy, array, string, number) is taken as it is; a key only the base has keeps the base's value |
| `Config.MergeVacio` | config.js:276 | merging nothing gives a copy of the base |
| `Config.MergeIdempotente` | config.js:275-286 | merging the same configuration twice equals merging it once |
| `Config.MergeHojaPersonalizada` | config.js:278-283 | every leaf the override defines is found at the same path in the result |
| `Config.MergeHojaBase` | config.js:275-286 | the merge is deep: a base value reached through objects, at a path the override does not reach (it lacks a key on the way or holds an object the path goes into), keeps its value in the result |
| `Config.Intermedio` | config.js:311-313 | the container stepped into is an object or array: an existing container is kept as it is, and a missing, falsy or primitive value becomes `{}` |
| `Config.Fijar` | config.js:306-318 | writing a path keeps the configuration an object |
| `Config.ValorTrasFijar` | config.js:306-318 | `establecer(key, x)` then `obtener(key)` gives `x` |
| `Config.FijarNoToca` | config.js:310-316 | a path that parts from the written one inside an object keeps its value |
| `Config.FijarOtrasClaves` | config.js:310-316 | top-level keys off the path keep their values; the only key added is the path's first segment |
| `Config.ObtenerEn` | config.js:290-302 | the loop of `obtener` returns the value at the path, `null` as soon as a segment is undefined |
| `Config.FijarEn` | config.js:306-318 | the loop of `establecer` produces the configuration with the path written |
| `Config.FormatHoraParaInput` | config.js:431-434 | at most five characters; an empty value gives `08:30`; a non-empty value gives its own first five characters (all of it when shorter) |
| `Config.ParseHoraDesdeInput` | config.js:436-438 | the input kept as it is, followed by exactly `:00` |
| `Config.HoraIdaYVuelta` | config.js:431-438 | a five-character input survives being stored and shown again |
| `Config.HoraVueltaEIda` | config.js:431-438 | a stored `HH:MM:00` survives being shown and stored again |
| `Config.PasosProcesamientoNoTocan` | config.js:393-402 | the writes under `procesamiento` leave every path outside it alone |
| `Config.PasoHorariosNoTocaValidaciones` | config.js:393-396 | the hour writes keep `procesamiento` an object and leave `validaciones` alone |
| `Config.GuardarUIMarco` | config.js:390-424 | the save writes only under `procesamiento`, `archivos` and `ui`: every other path keeps its value, on success and on a failure half way |
| `Config.GuardarUIExito` | config.js:390-424 | the save succeeds exactly when `procesamiento.horarios` and `archivos` both hold an object or array |
| `Config.GuardarUIHorarios` | config.js:393-396 | the form's entry and exit hours are stored, and the tolerances as `parseInt` reads them |
| `Config.GuardarUIValidaciones` | config.js:398-402 | `validaciones` becomes the old one with the form's keys laid over it, even when the save then fails |
| `Config.GuardarUIExportacion` | config.js:404-408 | `archivos.exportacion` becomes the old one with the form's keys laid over it |
| `Config.GuardarUIUi` | config.js:410-414 | after a successful save `ui` is the old one with the form's keys laid over it |
| `Config.UiIntacto` | config.js:393-408 | the steps before the `ui` one leave `ui` alone |
| `Config.TrasHorariosNoToca` | config.js:398-414 | the steps after the hour fields leave `procesamiento.horarios` alone |
| `Config.ConfiguracionSistema.constructor` | config.js:4-260 | the defaults, with the saved configuration merged over them when there is one |
| `Config.ConfiguracionSistema.Importar` | config.js:342-353 | the imported configuration is merged over the current one |
| `Config.ConfiguracionSistema.Obtener` | config.js:290-302 | the value at the dotted path, or `null` |
| `Config.ConfiguracionSistema.Establecer` | config.js:306-318 | the configuration becomes the one with the dotted path written |
| `Config.ConfiguracionSistema.GuardarDesdeUI` | config.js:390-424 | the configuration and the reported success are as `GuardarUI` says, including partial writes before a failure |

## Left out

- Browser work is not modelled: DOM rendering, modal HTML, tabs, drag-and-drop, notifications, Chart.js charts, `alert`, and `confirm`. Activation, deactivation and deletion are modelled on the path where the dialog is confirmed.
- I/O is not modelled: `fetch` of the roster, `FileReader`, XLSX reading and writing, `localStorage` (`guardarConfiguracion`, `guardarFuncionariosEnArchivo`, `restaurarPorDefecto`), and Blob downloads (`exportar`, `exportarExcel`). The page constructors take the loaded roster, or the saved configuration, as parameters. Reading a file is replaced by the rows or JSON it would give.
- `parsearFechaHora` is an abstract parameter, because it depends on `Date` parsing and on the time zone. `getRandomColor` and `formatFileSize` (floating point) are not modelled.
- `Ordering.Antes`: `localeCompare` and `new Date(a) - new Date(b)` become character order. This matches for ISO dates; locale collation is not modelled.
- `Text.Lower` folds ASCII letters only; Unicode case mapping is not modelled.
- `Text.ParseInt` uses unbounded integers, so precision loss past 2^53 is not modelled.
- The per-row `try`/`catch` of both adapters is left out. With string cells nothing in the row body throws, so its error path cannot be reached.
- The default configuration table in the constructor (config.js:5-243) is a parameter. Its literal cannot be parsed as written, because of the unquoted key at config.js:180.
- `obtenerParaUI` is not modelled. It is a read-only projection of the configuration for the form.
- `Config.Json` holds integers, not floating-point numbers.
- `Config.Campos`: spreading a string or an array yields index keys in JavaScript. The model treats both as `{}` in `mergeConfiguraciones` and in the `guardarDesdeUI` spreads.
- `Config.Valor`: a segment read through `null` or `undefined` throws a `TypeError` in `obtener`; the model returns `None` instead. Reading an index or `length` of a string, or `length` of an array, gives a value in JavaScript; the model returns `None` for every read through a primitive and for `length`.
- `Config.Poner`: a write to an array at a key that is not one of its indices leaves the array unchanged in the model. In JavaScript an index at or past the end extends the array, filling any gap with holes that JSON writes as `null`; a key that is not an index adds a property that JSON drops.
- `Config.Entero`: `parseInt` gives `NaN`, which stays `NaN` in the in-memory configuration; the model stores `null`, which is what JSON writes for it when the configuration is saved.
- `Summary.Tally`: JavaScript objects list keys that are array indices (such as `"7"`) first, in ascending order, before the other keys in insertion order. The model keeps insertion order for every key, so its order matches only when no key is an array index.
- `Summary.PorProyecto`: for the same reason, the summary rows of projects whose names are array indices come first in the source; the model keeps first-appearance order for every project.
- `Marcaciones.Pagina.GenerarEstadisticas`: the tallies it builds inherit `Summary.Tally`'s key order, which differs from `Object.entries` when a key is an array index.
- `Marcaciones.Pagina.GenerarResumenExport`: the summary rows inherit `Summary.PorProyecto`'s order, which differs from `Object.values` when a project name is an array index.
- `Config.ConfiguracionSistema.Importar` models the parsed file only. Parse and read errors reject the promise before anything changes.
- The `usuarioRegistro: 'admin'` field of a new record is not modelled.
- `Admin.Panel.GuardarFuncionario`: the roster and the filtered list hold record values, so aliasing is not modelled. In the source, `activarFuncionario` and `desactivarFuncionario` copy the shared object into the filtered list. A later mutation through one list is visible in the other only when they share it.
- `Admin.Panel.PropuestaNuevo`: proposes the code of the corrected generator (`Admin.GenerarCodigoCorregido`, see "## Findings" for admin.js:1025), not that of `generarCodigoFuncionario` as written. The two differ when the last code's trailing digits also occur earlier in it: after `A001-001` the source proposes `A-001002` and the model `A001-002`. The as-written generator is `Admin.GenerarCodigoComoEscrito`.
- The id written into the form is a parameter of `GuardarFuncionario`. `nuevoFuncionario` proposes it (`Admin.NuevoId`), but the user can change it.

## Findings

| source | as written | input that shows it | evidently intended | confidence | as-written member | corrected member |
|---|---|---|---|---|---|---|
| admin.js:1025 | `ultimoCodigo.replace(match[1], '')` removes the FIRST occurrence of the trailing digits, wherever it is | last code `A001-001` gives `A-001002` | strip the trailing digits only, giving `A001-002` | high (not executed) | `Admin.CodigoComoEscritoFalla` | `Admin.CodigoCorregidoEjemplo` |
