/** The two source adapters of script.js (`procesarTeams`, `procesarBiometrico`)
    as functions of the roster, the timestamp parser and the rows: what one row
    contributes to the event list and to the error list, and what a whole file
    contributes. The methods of `Marcaciones.Pagina` push exactly these. */
module Adapters {
  import opened Wrappers
  import opened Text
  import opened Roster
  import opened Identity

  /** One spreadsheet line: column name to cell text. */
  type Row = map<string, string>

  /** What `parsearFechaHora` returns on success: an ISO date and an
      `HH:MM:SS` time. The parser itself is a parameter of type
      `string -> Option<Stamp>`. */
  datatype Stamp = Stamp(fecha: string, hora: string)

  /** One normalized attendance event (an element of `processedData`). */
  datatype Event = Event(
    id: int,
    codigo: string,
    nombreCompleto: string,
    proyecto: string,
    fecha: string,
    hora: string,
    tipo: string,
    fuente: string,
    estado: string,
    rawData: Row)

  /** One element of `errors`: `tipo` is the source tag, `linea` the
      spreadsheet line (row index + 2, the header being line 1). */
  datatype ProcessingError = ProcessingError(tipo: string, linea: int, mensaje: string, datos: Row)

  /** What a row, or a run of rows, appends to `processedData` and `errors`. */
  datatype Outcome = Outcome(events: seq<Event>, errors: seq<ProcessingError>)

  datatype Source = Teams | Biometrico

  function Etiqueta(src: Source): string {
    match src
    case Teams => "Teams"
    case Biometrico => "Biométrico"
  }

  const TeamsNombreColumnas: seq<string> := ["Usuario", "Nombre", "Nombre Completo"]
  const BiometricoTiempoColumnas: seq<string> := ["Tiempo", "Fecha", "FechaHora"]
  const BiometricoTipoColumnas: seq<string> := ["Evento", "Estado"]

  /** `row[key]` when it is truthy, that is present and not empty. */
  function Celda(row: Row, key: string): (r: Option<string>)
    ensures r.Some? <==> key in row && row[key] != ""
    ensures r.Some? ==> r.value == row[key]
  {
    if key in row && row[key] != "" then Some(row[key]) else None
  }

  /** `row[k0] || row[k1] || ...`: the first truthy cell among the columns. */
  function PrimeraCelda(row: Row, keys: seq<string>): (r: Option<string>)
    ensures r.Some? ==> r.value != "" && exists k :: k in keys && k in row && row[k] == r.value
    ensures r.None? <==> forall k :: k in keys ==> Celda(row, k).None?
    ensures r.Some? ==>
      exists i :: 0 <= i < |keys| && Celda(row, keys[i]) == r && forall j :: 0 <= j < i ==> Celda(row, keys[j]).None?
    decreases |keys|
  {
    if |keys| == 0 then None
    else if Celda(row, keys[0]).Some? then Celda(row, keys[0])
    else PrimeraCelda(row, keys[1..])
  }

  /** `parsearFechaHora(v)`: a falsy argument gives `null`, anything else is
      handed to the (abstract) date parser. */
  function ParsearFechaHora(parse: string -> Option<Stamp>, v: Option<string>): (r: Option<Stamp>)
    ensures v.None? ==> r.None?
    ensures v == Some("") ==> r.None?
    ensures v.Some? && v.value != "" ==> r == parse(v.value)
  {
    match v
    case None => None
    case Some(s) => if s == "" then None else parse(s)
  }

  function NuevoEvento(f: Employee, s: Stamp, tipo: string, src: Source, row: Row): Event {
    Event(f.id, f.codigo, f.nombreCompleto, f.proyecto, s.fecha, s.hora, tipo, Etiqueta(src), "Procesado", row)
  }

  /** The event carries the identity (id, code, full name, project) of `f`. */
  predicate CopiaIdentidad(e: Event, f: Employee) {
    e.id == f.id && e.codigo == f.codigo && e.nombreCompleto == f.nombreCompleto && e.proyecto == f.proyecto
  }

  /** The event belongs to an active roster employee and copies its identity. */
  ghost predicate DeFuncionarioActivo(e: Event, funcs: seq<Employee>) {
    exists f :: f in funcs && f.activo && CopiaIdentidad(e, f)
  }

  // ---------------------------------------------------------------------
  // Teams
  // ---------------------------------------------------------------------

  /** The name a Teams row is looked up by. */
  function NombreTeams(row: Row): string {
    PrimeraCelda(row, TeamsNombreColumnas).GetOr("")
  }

  /** The events (zero or one) that one Teams time column yields. */
  function EventoTeams(f: Employee, parse: string -> Option<Stamp>, row: Row, columna: string, tipo: string): seq<Event> {
    match ParsearFechaHora(parse, Celda(row, columna))
    case Some(s) => [NuevoEvento(f, s, tipo, Teams, row)]
    case None => []
  }

  /** A Teams time column yields one event exactly when it is present and
      parses, and that event carries the column's type, the Teams source and
      the employee's identity. */
  lemma EventoTeamsContrato(f: Employee, parse: string -> Option<Stamp>, row: Row, columna: string, tipo: string)
    ensures var r := EventoTeams(f, parse, row, columna, tipo);
      && |r| <= 1
      && (|r| == 1 <==> ParsearFechaHora(parse, Celda(row, columna)).Some?)
      && (forall e :: e in r ==>
            e.tipo == tipo && e.fuente == "Teams" && e.estado == "Procesado" && e.rawData == row && CopiaIdentidad(e, f))
      && (|r| == 1 ==>
            var s := ParsearFechaHora(parse, Celda(row, columna)).value;
            r[0].fecha == s.fecha && r[0].hora == s.hora)
  {
  }

  /** One Teams row (the body of the `forEach` in `procesarTeams`), given
      what `buscarFuncionarioPorNombre(nombre)` returned for it. */
  function TeamsRow(quien: Option<Employee>, nombre: string, parse: string -> Option<Stamp>, row: Row, index: nat): Outcome {
    match quien
    case None => Outcome([], [ProcessingError("Teams", index + 2, "Funcionario no encontrado: " + nombre, row)])
    case Some(f) =>
      Outcome(EventoTeams(f, parse, row, "Hora de entrada", "Entrada") + EventoTeams(f, parse, row, "Hora de salida", "Salida"), [])
  }

  /** An unresolved name adds one error at line `index + 2` naming the input
      and no event; a resolved name adds at most two events, Entrada before
      Salida, each only when its column is present and parses, each carrying
      the resolved employee's identity; a present but unparseable time adds
      neither an event nor an error. */
  lemma TeamsRowContrato(quien: Option<Employee>, nombre: string, parse: string -> Option<Stamp>, row: Row, index: nat)
    ensures var o := TeamsRow(quien, nombre, parse, row, index);
      && |o.events| <= 2 && |o.errors| <= 1
      && (o.errors != [] <==> quien.None?)
      && (o.errors != [] ==>
            o.events == [] && o.errors[0].tipo == "Teams" && o.errors[0].linea == index + 2
            && Contains(o.errors[0].mensaje, nombre) && o.errors[0].datos == row)
      && (forall e :: e in o.events ==>
            quien.Some? && e.fuente == "Teams" && e.estado == "Procesado" && e.rawData == row
            && CopiaIdentidad(e, quien.value))
      && ((exists i :: 0 <= i < |o.events| && o.events[i].tipo == "Entrada") <==>
            quien.Some? && ParsearFechaHora(parse, Celda(row, "Hora de entrada")).Some?)
      && ((exists i :: 0 <= i < |o.events| && o.events[i].tipo == "Salida") <==>
            quien.Some? && ParsearFechaHora(parse, Celda(row, "Hora de salida")).Some?)
      && (forall i :: 0 <= i < |o.events| ==> o.events[i].tipo == "Entrada" || o.events[i].tipo == "Salida")
      && (|o.events| == 2 ==> o.events[0].tipo == "Entrada" && o.events[1].tipo == "Salida")
      && (forall e :: e in o.events && e.tipo == "Entrada" ==>
            && ParsearFechaHora(parse, Celda(row, "Hora de entrada")).Some?
            && e.fecha == ParsearFechaHora(parse, Celda(row, "Hora de entrada")).value.fecha
            && e.hora == ParsearFechaHora(parse, Celda(row, "Hora de entrada")).value.hora)
      && (forall e :: e in o.events && e.tipo == "Salida" ==>
            && ParsearFechaHora(parse, Celda(row, "Hora de salida")).Some?
            && e.fecha == ParsearFechaHora(parse, Celda(row, "Hora de salida")).value.fecha
            && e.hora == ParsearFechaHora(parse, Celda(row, "Hora de salida")).value.hora)
  {
    match quien
    case None =>
      ContainsSuffix("Funcionario no encontrado: ", nombre);
    case Some(f) =>
      var entrada := EventoTeams(f, parse, row, "Hora de entrada", "Entrada");
      var salida := EventoTeams(f, parse, row, "Hora de salida", "Salida");
      EventoTeamsContrato(f, parse, row, "Hora de entrada", "Entrada");
      EventoTeamsContrato(f, parse, row, "Hora de salida", "Salida");
      assert |entrada| == 1 ==> (entrada + salida)[0] == entrada[0];
      assert |salida| == 1 ==> (entrada + salida)[|entrada|] == salida[0];
  }

  // ---------------------------------------------------------------------
  // Biometric
  // ---------------------------------------------------------------------

  /** `${parseInt(row['ID de Usuario']) || row['ID']}`: the id text a
      Biometric row is looked up by, and that its error message shows. A `NaN`
      or zero parse falls back to the `ID` column (`undefined` when absent). */
  function IdUsuario(row: Row): string {
    var p := if "ID de Usuario" in row then ParseInt(row["ID de Usuario"]) else None;
    if p.Some? && p.value != 0 then IntToString(p.value)
    else if "ID" in row then row["ID"]
    else "undefined"
  }

  /** The looked-up id is the parsed `ID de Usuario` when that is a non-zero
      number: rendering it and parsing it again loses nothing. */
  lemma IdUsuarioParsed(row: Row)
    requires "ID de Usuario" in row
    requires ParseInt(row["ID de Usuario"]).Some? && ParseInt(row["ID de Usuario"]).value != 0
    ensures ParseInt(IdUsuario(row)) == ParseInt(row["ID de Usuario"])
  {
    ParseIntRoundTrip(ParseInt(row["ID de Usuario"]).value);
  }

  /** `row['Evento'] || row['Estado'] || 'Marcación'`. */
  function TipoBiometrico(row: Row): (t: string)
    ensures t != ""
    ensures Celda(row, "Evento").Some? ==> t == row["Evento"]
    ensures Celda(row, "Evento").None? && Celda(row, "Estado").Some? ==> t == row["Estado"]
    ensures Celda(row, "Evento").None? && Celda(row, "Estado").None? ==> t == "Marcación"
  {
    PrimeraCelda(row, BiometricoTipoColumnas).GetOr("Marcación")
  }

  /** One Biometric row (the body of the `forEach` in `procesarBiometrico`),
      given the id text and what `buscarFuncionarioPorId` returned for it. */
  function BiometricoRow(quien: Option<Employee>, idUsuario: string, parse: string -> Option<Stamp>, row: Row, index: nat): Outcome {
    match quien
    case None => Outcome([], [ProcessingError("Biométrico", index + 2, "ID de usuario no encontrado: " + idUsuario, row)])
    case Some(f) =>
      match ParsearFechaHora(parse, PrimeraCelda(row, BiometricoTiempoColumnas))
      case Some(s) => Outcome([NuevoEvento(f, s, TipoBiometrico(row), Biometrico, row)], [])
      case None => Outcome([], [])
  }

  /** At most one event or one error, never both; an unresolved id gives one
      error at line `index + 2` naming the id; an unparseable or missing
      timestamp gives nothing at all; an event carries the parsed timestamp,
      the row's event type and the employee's identity. */
  lemma BiometricoRowContrato(quien: Option<Employee>, idUsuario: string, parse: string -> Option<Stamp>, row: Row, index: nat)
    ensures var o := BiometricoRow(quien, idUsuario, parse, row, index);
      && |o.events| + |o.errors| <= 1
      && (o.errors != [] <==> quien.None?)
      && (o.errors != [] ==>
            o.errors[0].tipo == "Biométrico" && o.errors[0].linea == index + 2
            && Contains(o.errors[0].mensaje, idUsuario) && o.errors[0].datos == row)
      && (o.events != [] <==>
            quien.Some? && ParsearFechaHora(parse, PrimeraCelda(row, BiometricoTiempoColumnas)).Some?)
      && (o.events != [] ==>
            var s := ParsearFechaHora(parse, PrimeraCelda(row, BiometricoTiempoColumnas)).value;
            var e := o.events[0];
            e.fuente == "Biométrico" && e.tipo == TipoBiometrico(row) && e.fecha == s.fecha && e.hora == s.hora
            && e.estado == "Procesado" && e.rawData == row && CopiaIdentidad(e, quien.value))
  {
    if quien.None? {
      ContainsSuffix("ID de usuario no encontrado: ", idUsuario);
    }
  }

  // ---------------------------------------------------------------------
  // A whole file
  // ---------------------------------------------------------------------

  /** What one row contributes once its identity lookup has returned `quien`. */
  function Fila(src: Source, quien: Option<Employee>, parse: string -> Option<Stamp>, row: Row, index: nat): Outcome {
    match src
    case Teams => TeamsRow(quien, NombreTeams(row), parse, row, index)
    case Biometrico => BiometricoRow(quien, IdUsuario(row), parse, row, index)
  }

  /** How much one row contributes: at most one error, and at most two
      events (Teams) or one event-or-error (Biometric). */
  lemma FilaCounts(src: Source, quien: Option<Employee>, parse: string -> Option<Stamp>, row: Row, index: nat)
    ensures var o := Fila(src, quien, parse, row, index);
      && |o.errors| <= 1
      && (o.errors != [] <==> quien.None?)
      && (src == Teams ==> |o.events| <= 2)
      && (src == Biometrico ==> |o.events| + |o.errors| <= 1)
  {
    match src
    case Teams => TeamsRowContrato(quien, NombreTeams(row), parse, row, index);
    case Biometrico => BiometricoRowContrato(quien, IdUsuario(row), parse, row, index);
  }

  /** What one row's errors and events carry, whatever the lookup returned. */
  lemma FilaFacts(src: Source, quien: Option<Employee>, parse: string -> Option<Stamp>, row: Row, index: nat)
    ensures var o := Fila(src, quien, parse, row, index);
      && (forall e :: e in o.errors ==> e.linea == index + 2 && e.tipo == Etiqueta(src))
      && (forall e :: e in o.events ==> quien.Some? && e.fuente == Etiqueta(src) && CopiaIdentidad(e, quien.value))
  {
    match src
    case Teams => TeamsRowContrato(quien, NombreTeams(row), parse, row, index);
    case Biometrico => BiometricoRowContrato(quien, IdUsuario(row), parse, row, index);
  }

  /** The employee a row resolves to: by name for Teams, by id for Biometric. */
  function Resuelto(src: Source, funcs: seq<Employee>, row: Row): (r: Option<Employee>)
    ensures r.Some? ==> r.value in funcs && r.value.activo
  {
    match src
    case Teams => BuscarFuncionarioPorNombre(funcs, NombreTeams(row))
    case Biometrico => BuscarFuncionarioPorId(funcs, IdUsuario(row))
  }

  /** The identity lookup an adapter applies to each row, as a value. */
  function Resolver(src: Source, funcs: seq<Employee>): Row -> Option<Employee> {
    row => Resuelto(src, funcs, row)
  }

  /** A lookup that only ever returns active roster employees. */
  ghost predicate DevuelveActivos(resolve: Row -> Option<Employee>, funcs: seq<Employee>) {
    forall row :: resolve(row).Some? ==> resolve(row).value in funcs && resolve(row).value.activo
  }

  /** Both adapters' lookups return only active roster employees. */
  lemma ResolverActivos(src: Source, funcs: seq<Employee>)
    ensures DevuelveActivos(Resolver(src, funcs), funcs)
  {
    forall row | Resolver(src, funcs)(row).Some?
      ensures Resolver(src, funcs)(row).value in funcs && Resolver(src, funcs)(row).value.activo
    {
      assert Resolver(src, funcs)(row) == Resuelto(src, funcs, row);
    }
  }

  /** The events and the errors of several row outcomes, each list
      concatenated in order. */
  function Concat(outs: seq<Outcome>): Outcome
    decreases |outs|
  {
    if |outs| == 0 then Outcome([], [])
    else
      var o := Concat(outs[..|outs| - 1]);
      var r := outs[|outs| - 1];
      Outcome(o.events + r.events, o.errors + r.errors)
  }

  /** The per-row outcomes of a whole file, each row looked up with `resolve`. */
  function Filas(src: Source, resolve: Row -> Option<Employee>, parse: string -> Option<Stamp>, rows: seq<Row>): (r: seq<Outcome>)
    ensures |r| == |rows|
  {
    seq(|rows|, k requires 0 <= k < |rows| => Fila(src, resolve(rows[k]), parse, rows[k], k))
  }

  /** What the first `n` rows of a file append, in row order. */
  function Run(src: Source, resolve: Row -> Option<Employee>, parse: string -> Option<Stamp>, rows: seq<Row>, n: nat): Outcome
    requires n <= |rows|
  {
    Concat(Filas(src, resolve, parse, rows)[..n])
  }

  /** Processing one more row appends exactly that row's outcome. */
  lemma RunStep(src: Source, resolve: Row -> Option<Employee>, parse: string -> Option<Stamp>, rows: seq<Row>, n: nat)
    requires n < |rows|
    ensures var o := Run(src, resolve, parse, rows, n);
            var r := Fila(src, resolve(rows[n]), parse, rows[n], n);
      Run(src, resolve, parse, rows, n + 1) == Outcome(o.events + r.events, o.errors + r.errors)
  {
    var fs := Filas(src, resolve, parse, rows);
    assert fs[..n + 1][..n] == fs[..n];
  }

  /** Bounds on a concatenation from bounds on each part. */
  lemma {:induction false} ConcatCounts(outs: seq<Outcome>, maxEvents: nat)
    requires forall k :: 0 <= k < |outs| ==> |outs[k].errors| <= 1 && |outs[k].events| <= maxEvents
    ensures |Concat(outs).errors| <= |outs|
    ensures |Concat(outs).events| <= maxEvents * |outs|
    decreases |outs|
  {
    if |outs| > 0 {
      ConcatCounts(outs[..|outs| - 1], maxEvents);
    }
  }

  /** When no part holds both an event and an error and none holds two
      entries, the concatenation holds at most one entry per part. */
  lemma {:induction false} ConcatExclusive(outs: seq<Outcome>)
    requires forall k :: 0 <= k < |outs| ==> |outs[k].events| + |outs[k].errors| <= 1
    ensures |Concat(outs).events| + |Concat(outs).errors| <= |outs|
    decreases |outs|
  {
    if |outs| > 0 {
      ConcatExclusive(outs[..|outs| - 1]);
    }
  }

  /** Every event of a concatenation comes from one of its parts. */
  lemma {:induction false} ConcatEventOrigin(outs: seq<Outcome>, e: Event)
    requires e in Concat(outs).events
    ensures exists k :: 0 <= k < |outs| && e in outs[k].events
    decreases |outs|
  {
    var o := Concat(outs[..|outs| - 1]);
    if e in o.events {
      ConcatEventOrigin(outs[..|outs| - 1], e);
      var k :| 0 <= k < |outs| - 1 && e in outs[..|outs| - 1][k].events;
      assert outs[..|outs| - 1][k] == outs[k];
    }
  }

  /** Part `k` records at most one error, and it is at line `k + 2`. */
  ghost predicate ErroresEnLinea(outs: seq<Outcome>) {
    forall k :: 0 <= k < |outs| ==> |outs[k].errors| <= 1 && forall e :: e in outs[k].errors ==> e.linea == k + 2
  }

  /** Errors of a concatenation are in strictly increasing line order, each
      at the line of the part that recorded it, and every part with an error
      shows up. */
  lemma {:induction false} ConcatErrors(outs: seq<Outcome>)
    requires ErroresEnLinea(outs)
    ensures forall i :: 0 <= i < |Concat(outs).errors| ==>
      2 <= Concat(outs).errors[i].linea <= |outs| + 1
      && Concat(outs).errors[i] in outs[Concat(outs).errors[i].linea - 2].errors
    ensures forall i, j :: 0 <= i < j < |Concat(outs).errors| ==> Concat(outs).errors[i].linea < Concat(outs).errors[j].linea
    ensures forall k, e :: 0 <= k < |outs| && e in outs[k].errors ==> e in Concat(outs).errors
    decreases |outs|
  {
    if |outs| > 0 {
      var front := outs[..|outs| - 1];
      assert ErroresEnLinea(front) by {
        forall k | 0 <= k < |front| ensures |front[k].errors| <= 1 && forall e :: e in front[k].errors ==> e.linea == k + 2 {
          assert front[k] == outs[k];
        }
      }
      ConcatErrors(front);
      var prev := Concat(front).errors;
      var mine := outs[|outs| - 1].errors;
      var errs := Concat(outs).errors;
      assert errs == prev + mine;
      forall i | 0 <= i < |errs|
        ensures 2 <= errs[i].linea <= |outs| + 1 && errs[i] in outs[errs[i].linea - 2].errors
      {
        if i < |prev| {
          assert errs[i] == prev[i];
          assert 2 <= prev[i].linea <= |front| + 1;
          assert front[prev[i].linea - 2] == outs[prev[i].linea - 2];
        } else {
          assert errs[i] == mine[i - |prev|];
        }
      }
      forall k, e | 0 <= k < |outs| - 1 && e in outs[k].errors
        ensures e in errs
      {
        assert front[k] == outs[k];
      }
    }
  }

  /** A file of `n` rows yields at most `n` errors, at most `2n` events from
      Teams and at most `n` events-plus-errors from the Biometric terminal. */
  lemma RunBounds(src: Source, resolve: Row -> Option<Employee>, parse: string -> Option<Stamp>, rows: seq<Row>, n: nat)
    requires n <= |rows|
    ensures var o := Run(src, resolve, parse, rows, n);
      && |o.errors| <= n
      && (src == Teams ==> |o.events| <= 2 * n)
      && (src == Biometrico ==> |o.events| + |o.errors| <= n)
  {
    var outs := Filas(src, resolve, parse, rows)[..n];
    forall k | 0 <= k < n
      ensures |outs[k].errors| <= 1 && |outs[k].events| <= 2
      ensures src == Biometrico ==> |outs[k].events| + |outs[k].errors| <= 1
    {
      FilaCounts(src, resolve(rows[k]), parse, rows[k], k);
    }
    ConcatCounts(outs, 2);
    if src == Biometrico {
      ConcatExclusive(outs);
    }
  }

  /** Every event of a file carries the source tag and the identity of an
      active roster employee. */
  lemma RunEventsActive(src: Source, resolve: Row -> Option<Employee>, funcs: seq<Employee>,
                        parse: string -> Option<Stamp>, rows: seq<Row>, n: nat)
    requires n <= |rows|
    requires DevuelveActivos(resolve, funcs)
    ensures forall e :: e in Run(src, resolve, parse, rows, n).events ==>
      e.fuente == Etiqueta(src) && DeFuncionarioActivo(e, funcs)
  {
    var outs := Filas(src, resolve, parse, rows)[..n];
    forall e | e in Concat(outs).events
      ensures e.fuente == Etiqueta(src) && DeFuncionarioActivo(e, funcs)
    {
      ConcatEventOrigin(outs, e);
      var k :| 0 <= k < |outs| && e in outs[k].events;
      var quien := resolve(rows[k]);
      FilaFacts(src, quien, parse, rows[k], k);
      assert quien.value in funcs && quien.value.activo && CopiaIdentidad(e, quien.value);
    }
  }

  /** Row by row: at most one error, exactly when the identity does not
      resolve, tagged with the source and at line `index + 2`. */
  lemma FilasErrores(src: Source, resolve: Row -> Option<Employee>, parse: string -> Option<Stamp>, rows: seq<Row>, n: nat)
    requires n <= |rows|
    ensures ErroresEnLinea(Filas(src, resolve, parse, rows)[..n])
    ensures forall k :: 0 <= k < n ==>
      (Filas(src, resolve, parse, rows)[k].errors != [] <==> resolve(rows[k]).None?)
      && forall e :: e in Filas(src, resolve, parse, rows)[k].errors ==> e.tipo == Etiqueta(src)
  {
    var fs := Filas(src, resolve, parse, rows);
    forall k | 0 <= k < n
      ensures |fs[k].errors| <= 1 && (fs[k].errors != [] <==> resolve(rows[k]).None?)
      ensures forall e :: e in fs[k].errors ==> e.linea == k + 2 && e.tipo == Etiqueta(src)
    {
      FilaCounts(src, resolve(rows[k]), parse, rows[k], k);
      FilaFacts(src, resolve(rows[k]), parse, rows[k], k);
    }
  }

  /** Every recorded error belongs to a row whose identity does not resolve,
      is tagged with the source and sits at that row's line `index + 2`; the
      errors are in strictly increasing line order. */
  lemma RunErrors(src: Source, resolve: Row -> Option<Employee>, parse: string -> Option<Stamp>, rows: seq<Row>, n: nat)
    requires n <= |rows|
    ensures forall i :: 0 <= i < |Run(src, resolve, parse, rows, n).errors| ==>
      var e := Run(src, resolve, parse, rows, n).errors[i];
      e.tipo == Etiqueta(src) && 2 <= e.linea <= n + 1 && resolve(rows[e.linea - 2]).None?
    ensures forall i, j :: 0 <= i < j < |Run(src, resolve, parse, rows, n).errors| ==>
      Run(src, resolve, parse, rows, n).errors[i].linea < Run(src, resolve, parse, rows, n).errors[j].linea
  {
    var fs := Filas(src, resolve, parse, rows);
    var outs := fs[..n];
    FilasErrores(src, resolve, parse, rows, n);
    ConcatErrors(outs);
    var errs := Concat(outs).errors;
    forall i | 0 <= i < |errs|
      ensures errs[i].tipo == Etiqueta(src) && 2 <= errs[i].linea <= n + 1 && resolve(rows[errs[i].linea - 2]).None?
    {
      var k := errs[i].linea - 2;
      assert errs[i] in fs[k].errors;
    }
  }

  /** Every row whose identity does not resolve has its error recorded. */
  lemma RunErrorsComplete(src: Source, resolve: Row -> Option<Employee>, parse: string -> Option<Stamp>, rows: seq<Row>, n: nat)
    requires n <= |rows|
    ensures forall k :: 0 <= k < n && resolve(rows[k]).None? ==>
      exists e :: e in Run(src, resolve, parse, rows, n).errors && e.linea == k + 2
  {
    var fs := Filas(src, resolve, parse, rows);
    var outs := fs[..n];
    FilasErrores(src, resolve, parse, rows, n);
    ConcatErrors(outs);
    forall k | 0 <= k < n && resolve(rows[k]).None?
      ensures exists e :: e in Concat(outs).errors && e.linea == k + 2
    {
      assert outs[k] == fs[k];
      assert outs[k].errors[0] in Concat(outs).errors;
    }
  }
}
