/** The attendance page of script.js: its global state (`funcionarios`,
    `proyectos`, `processedData`, `errors`, `activityLog`) as the fields of
    one object, and the operations that update it step by step. Each loop is
    proved equal to the function of module `Adapters`, `Ordering` or
    `Summary` that specifies it; what those functions promise is proved
    there. */
module Marcaciones {
  import opened Wrappers
  import opened Roster
  import opened Adapters
  import opened Ordering
  import opened Summary

  // ---------------------------------------------------------------------
  // Activity log
  // ---------------------------------------------------------------------

  /** One entry of `activityLog`. */
  datatype Actividad = Actividad(fecha: string, mensaje: string, tipo: string, usuario: string)

  /** The log keeps at most this many entries. */
  const MaxActividades: nat := 50

  /** `registrarActividad` on a log: the new entry goes first, the old
      entries follow in order, and when that makes the log longer than the
      bound the oldest entry is dropped. */
  function Registrar(log: seq<Actividad>, a: Actividad): (r: seq<Actividad>)
    ensures |r| > 0 && r[0] == a
    ensures |r| == if |log| < MaxActividades then |log| + 1 else |log|
    ensures forall i :: 1 <= i < |r| ==> r[i] == log[i - 1]
  {
    var l := [a] + log;
    if |l| > MaxActividades then l[..|l| - 1] else l
  }

  /** Several entries registered one after the other, in order. */
  function RegistrarTodas(log: seq<Actividad>, nuevas: seq<Actividad>): seq<Actividad>
    decreases |nuevas|
  {
    if |nuevas| == 0 then log
    else Registrar(RegistrarTodas(log, nuevas[..|nuevas| - 1]), nuevas[|nuevas| - 1])
  }

  /** After any run of registrations the log holds at most 50 entries, and
      its first entries are the latest registrations, newest first. */
  lemma {:induction false} RegistrarRecientes(log: seq<Actividad>, nuevas: seq<Actividad>)
    requires |log| <= MaxActividades
    ensures |RegistrarTodas(log, nuevas)| == if |log| + |nuevas| < MaxActividades then |log| + |nuevas| else MaxActividades
    ensures forall i :: 0 <= i < |nuevas| && i < MaxActividades ==>
      RegistrarTodas(log, nuevas)[i] == nuevas[|nuevas| - 1 - i]
    decreases |nuevas|
  {
    if |nuevas| > 0 {
      var previas := nuevas[..|nuevas| - 1];
      RegistrarRecientes(log, previas);
      var r := RegistrarTodas(log, nuevas);
      forall i | 1 <= i < |nuevas| && i < MaxActividades
        ensures r[i] == nuevas[|nuevas| - 1 - i]
      {
        assert previas[|previas| - 1 - (i - 1)] == nuevas[|nuevas| - 1 - i];
      }
    }
  }

  // ---------------------------------------------------------------------
  // Project colours
  // ---------------------------------------------------------------------

  /** The fixed palette of `getColorForIndex`. */
  const Paleta: seq<string> := ["#2c3e50", "#3498db", "#27ae60", "#9b59b6", "#f39c12", "#e74c3c", "#1abc9c", "#d35400"]

  /** `colors[index % colors.length]`. */
  function GetColorForIndex(index: nat): (c: string)
    ensures c in Paleta && c != ""
    ensures c == Paleta[index % 8]
  {
    Paleta[index % |Paleta|]
  }

  /** The palette repeats every eight indices. */
  lemma ColoresPeriodicos(i: nat)
    ensures GetColorForIndex(i + |Paleta|) == GetColorForIndex(i)
  {
  }

  /** The eight palette entries are pairwise different. */
  lemma PaletaDistinta()
    ensures forall x, y :: 0 <= x < y < |Paleta| ==> Paleta[x] != Paleta[y]
  {
    forall x, y | 0 <= x < y < |Paleta|
      ensures Paleta[x] != Paleta[y]
    {
      assert Paleta[x][1..3] != Paleta[y][1..3] || Paleta[x][3..] != Paleta[y][3..];
    }
  }

  /** Any eight consecutive indices get eight different colours. */
  lemma ColoresConsecutivosDistintos(i: nat, j: nat)
    requires i < j < i + |Paleta|
    ensures GetColorForIndex(i) != GetColorForIndex(j)
  {
    PaletaDistinta();
    assert i % 8 != j % 8 by {
      var d := j - i;
      assert i == 8 * (i / 8) + i % 8;
      if i % 8 + d < 8 {
        assert j == 8 * (i / 8) + (i % 8 + d);
      } else {
        assert j == 8 * (i / 8 + 1) + (i % 8 + d - 8);
      }
    }
  }

  /** The colour a project gets while the table is built:
      `proj.codigoColor || getColorForIndex(index)`. */
  function ColorEntrada(p: Project, index: nat): string {
    if p.codigoColor != "" then p.codigoColor else GetColorForIndex(index)
  }

  /** The `coloresProyectos` dictionary after the first `|ps|` projects:
      a later project with the same id overwrites an earlier one. */
  function Colores(ps: seq<Project>): map<string, string>
    decreases |ps|
  {
    if |ps| == 0 then map[]
    else Colores(ps[..|ps| - 1])[ps[|ps| - 1].id := ColorEntrada(ps[|ps| - 1], |ps| - 1)]
  }

  /** The dictionary has an entry for exactly the project ids. */
  lemma {:induction false} ColoresClaves(ps: seq<Project>)
    ensures forall id :: id in Colores(ps) <==> exists i :: 0 <= i < |ps| && ps[i].id == id
    decreases |ps|
  {
    if |ps| > 0 {
      var init := ps[..|ps| - 1];
      ColoresClaves(init);
      forall id
        ensures id in Colores(ps) <==> exists i :: 0 <= i < |ps| && ps[i].id == id
      {
        if id in Colores(init) {
          var i :| 0 <= i < |init| && init[i].id == id;
          assert ps[i].id == id;
        }
        if id != ps[|ps| - 1].id && exists i :: 0 <= i < |ps| && ps[i].id == id {
          var i :| 0 <= i < |ps| && ps[i].id == id;
          assert init[i].id == id;
        }
      }
    }
  }

  /** The entry of an id is the colour of the LAST project with that id:
      later projects overwrite earlier ones. */
  lemma {:induction false} ColoresValores(ps: seq<Project>)
    ensures forall i :: 0 <= i < |ps| && (forall j :: i < j < |ps| ==> ps[j].id != ps[i].id) ==>
      ps[i].id in Colores(ps) && Colores(ps)[ps[i].id] == ColorEntrada(ps[i], i)
    decreases |ps|
  {
    if |ps| > 0 {
      var init := ps[..|ps| - 1];
      ColoresValores(init);
      forall i | 0 <= i < |ps| - 1 && (forall j :: i < j < |ps| ==> ps[j].id != ps[i].id)
        ensures ps[i].id in Colores(ps) && Colores(ps)[ps[i].id] == ColorEntrada(ps[i], i)
      {
        assert init[i] == ps[i];
        assert forall j :: i < j < |init| ==> init[j].id != init[i].id;
      }
    }
  }

  /** `coloresProyectos[item.proyecto] || '#cccccc'`. */
  function ColorDe(colores: map<string, string>, proyecto: string): (c: string)
    ensures c != ""
    ensures proyecto !in colores ==> c == "#cccccc"
    ensures proyecto in colores && colores[proyecto] != "" ==> c == colores[proyecto]
    ensures proyecto in colores && colores[proyecto] == "" ==> c == "#cccccc"
  {
    if proyecto in colores && colores[proyecto] != "" then colores[proyecto] else "#cccccc"
  }

  // ---------------------------------------------------------------------
  // Both files of one processing run
  // ---------------------------------------------------------------------

  /** What one optional file contributes: nothing when it was not chosen,
      otherwise all of its rows. */
  function Archivo(src: Source, funcs: seq<Employee>, parse: string -> Option<Stamp>, rows: Option<seq<Row>>): Outcome {
    match rows
    case None => Outcome([], [])
    case Some(r) => Run(src, Resolver(src, funcs), parse, r, |r|)
  }

  /** Events and errors of a run before the sort: the Teams file's, then
      the Biometric file's. */
  function Cargados(funcs: seq<Employee>, parse: string -> Option<Stamp>, teams: Option<seq<Row>>, bio: Option<seq<Row>>): Outcome {
    var t := Archivo(Teams, funcs, parse, teams);
    var b := Archivo(Biometrico, funcs, parse, bio);
    Outcome(t.events + b.events, t.errors + b.errors)
  }

  lemma ArchivoEtiquetas(src: Source, funcs: seq<Employee>, parse: string -> Option<Stamp>, rows: Option<seq<Row>>)
    ensures rows.None? ==> Archivo(src, funcs, parse, rows) == Outcome([], [])
    ensures forall e :: e in Archivo(src, funcs, parse, rows).events ==> e.fuente == Etiqueta(src) && DeFuncionarioActivo(e, funcs)
    ensures forall i :: 0 <= i < |Archivo(src, funcs, parse, rows).errors| ==> Archivo(src, funcs, parse, rows).errors[i].tipo == Etiqueta(src)
  {
    if rows.Some? {
      ResolverActivos(src, funcs);
      RunEventsActive(src, Resolver(src, funcs), funcs, parse, rows.value, |rows.value|);
      RunErrors(src, Resolver(src, funcs), parse, rows.value, |rows.value|);
    }
  }

  /** Events of two sources placed one list after the other: every event of
      the first source comes before every event of the second. */
  lemma {:induction false} FuentesEnOrden(t: seq<Event>, b: seq<Event>)
    requires forall e :: e in t ==> e.fuente == "Teams"
    requires forall e :: e in b ==> e.fuente == "Biométrico"
    ensures forall i :: 0 <= i < |t + b| ==> (t + b)[i].fuente == (if i < |t| then "Teams" else "Biométrico")
    ensures forall i, j :: 0 <= i < j < |t + b| && (t + b)[j].fuente == "Teams" ==> (t + b)[i].fuente == "Teams"
  {
    forall i | 0 <= i < |t + b|
      ensures (t + b)[i].fuente == (if i < |t| then "Teams" else "Biométrico")
    {
      if i < |t| {
        assert (t + b)[i] == t[i];
      } else {
        assert (t + b)[i] == b[i - |t|];
      }
    }
  }

  /** The same for the errors of two sources. */
  lemma {:induction false} TiposEnOrden(t: seq<ProcessingError>, b: seq<ProcessingError>)
    requires forall i :: 0 <= i < |t| ==> t[i].tipo == "Teams"
    requires forall i :: 0 <= i < |b| ==> b[i].tipo == "Biométrico"
    ensures forall i :: 0 <= i < |t + b| ==> (t + b)[i].tipo == (if i < |t| then "Teams" else "Biométrico")
    ensures forall i, j :: 0 <= i < j < |t + b| && (t + b)[j].tipo == "Teams" ==> (t + b)[i].tipo == "Teams"
  {
    forall i | 0 <= i < |t + b|
      ensures (t + b)[i].tipo == (if i < |t| then "Teams" else "Biométrico")
    {
      if i < |t| {
        assert (t + b)[i] == t[i];
      } else {
        assert (t + b)[i] == b[i - |t|];
      }
    }
  }

  /** Teams is processed before Biometric: in the insertion order of a run,
      the Teams file's events are at the front and the Biometric file's after
      them, each belonging to an active employee. */
  lemma EventosEnOrden(funcs: seq<Employee>, parse: string -> Option<Stamp>, teams: Option<seq<Row>>, bio: Option<seq<Row>>)
    ensures var c := Cargados(funcs, parse, teams, bio).events;
      var n := |Archivo(Teams, funcs, parse, teams).events|;
      && (forall e :: e in c ==> DeFuncionarioActivo(e, funcs))
      && (forall i :: 0 <= i < |c| ==> c[i].fuente == (if i < n then "Teams" else "Biométrico"))
  {
    ArchivoEtiquetas(Teams, funcs, parse, teams);
    ArchivoEtiquetas(Biometrico, funcs, parse, bio);
    FuentesEnOrden(Archivo(Teams, funcs, parse, teams).events, Archivo(Biometrico, funcs, parse, bio).events);
  }

  /** Likewise the errors: the Teams file's first, then the Biometric file's. */
  lemma ErroresEnOrden(funcs: seq<Employee>, parse: string -> Option<Stamp>, teams: Option<seq<Row>>, bio: Option<seq<Row>>)
    ensures var c := Cargados(funcs, parse, teams, bio).errors;
      var n := |Archivo(Teams, funcs, parse, teams).errors|;
      forall i :: 0 <= i < |c| ==> c[i].tipo == (if i < n then "Teams" else "Biométrico")
  {
    ArchivoEtiquetas(Teams, funcs, parse, teams);
    ArchivoEtiquetas(Biometrico, funcs, parse, bio);
    TiposEnOrden(Archivo(Teams, funcs, parse, teams).errors, Archivo(Biometrico, funcs, parse, bio).errors);
  }

  /** After the sort, the events sharing any one sort key are the Teams
      file's events with that key, then the Biometric file's, each in row
      order: the stable sort keeps the Teams-first insertion order among
      equal keys. */
  lemma OrdenFinalEstable(funcs: seq<Employee>, parse: string -> Option<Stamp>, teams: Option<seq<Row>>, bio: Option<seq<Row>>, k: Event)
    ensures ConClave(Ordenar(Cargados(funcs, parse, teams, bio).events), k)
      == ConClave(Archivo(Teams, funcs, parse, teams).events, k) + ConClave(Archivo(Biometrico, funcs, parse, bio).events, k)
  {
    OrdenarEstable(Cargados(funcs, parse, teams, bio).events, k);
    ConClaveConcat(Archivo(Teams, funcs, parse, teams).events, Archivo(Biometrico, funcs, parse, bio).events, k);
  }

  // ---------------------------------------------------------------------
  // The page
  // ---------------------------------------------------------------------

  class Pagina {
    /** The roster and the project list, loaded once by `cargarDatos` and
        never reassigned afterwards. */
    const funcionarios: seq<Employee>
    const proyectos: seq<Project>
    var processedData: seq<Event>
    var errors: seq<ProcessingError>
    var activityLog: seq<Actividad>

    /** The activity log never exceeds its bound. */
    ghost predicate Valid()
      reads this
    {
      |activityLog| <= MaxActividades
    }

    /** The page once `cargarDatos` has loaded the roster: no events, no
        errors, an empty log. */
    constructor (funcs: seq<Employee>, projs: seq<Project>)
      ensures Valid()
      ensures funcionarios == funcs && proyectos == projs
      ensures processedData == [] && errors == [] && activityLog == []
    {
      funcionarios := funcs;
      proyectos := projs;
      processedData := [];
      errors := [];
      activityLog := [];
    }

    /** `procesarTeams`: every row of the sheet in order; appends exactly
        what `Run` says the rows yield, with the roster looked up by name. */
    method ProcesarTeams(parse: string -> Option<Stamp>, rows: seq<Row>)
      modifies this`processedData, this`errors
      ensures processedData == old(processedData) + Run(Teams, Resolver(Teams, funcionarios), parse, rows, |rows|).events
      ensures errors == old(errors) + Run(Teams, Resolver(Teams, funcionarios), parse, rows, |rows|).errors
    {
      ghost var r := Run(Teams, Resolver(Teams, funcionarios), parse, rows, |rows|);
      var nuevos, fallos := FilasTeams(funcionarios, parse, rows);
      assert nuevos == r.events && fallos == r.errors;
      processedData := processedData + nuevos;
      errors := errors + fallos;
    }

    /** `procesarBiometrico`: every row of the sheet in order; appends
        exactly what `Run` says the rows yield, with the roster looked up by
        id. */
    method ProcesarBiometrico(parse: string -> Option<Stamp>, rows: seq<Row>)
      modifies this`processedData, this`errors
      ensures processedData == old(processedData) + Run(Biometrico, Resolver(Biometrico, funcionarios), parse, rows, |rows|).events
      ensures errors == old(errors) + Run(Biometrico, Resolver(Biometrico, funcionarios), parse, rows, |rows|).errors
    {
      ghost var r := Run(Biometrico, Resolver(Biometrico, funcionarios), parse, rows, |rows|);
      var nuevos, fallos := FilasBiometrico(funcionarios, parse, rows);
      assert nuevos == r.events && fallos == r.errors;
      processedData := processedData + nuevos;
      errors := errors + fallos;
    }

    /** The sort of `mostrarResultados`: a stable insertion sort by the
        comparator, proved to produce `Ordenar` of the previous contents
        (so ordered, a permutation, and stable). */
    method MostrarResultados()
      modifies this`processedData
      ensures processedData == Ordenar(old(processedData))
    {
      processedData := OrdenarPorInsercion(processedData);
    }

    /** `generarEstadisticas`: the per-project and per-source counts of the
        current events, as `Tally` computes them. */
    method GenerarEstadisticas() returns (porProyecto: seq<Cuenta>, porFuente: seq<Cuenta>)
      ensures porProyecto == Tally(Proyectos(processedData))
      ensures porFuente == Tally(Fuentes(processedData))
    {
      porProyecto := Contador(Proyectos(processedData));
      porFuente := Contador(Fuentes(processedData));
    }

    /** `generarResumenExport`: one counter row per project, in order of first
        appearance (for project names that are not array indices), then the
        `TODOS` totals row. */
    method GenerarResumenExport() returns (resumen: seq<FilaResumen>)
      ensures resumen == Resumen(processedData)
    {
      var filas := AgruparPorProyecto(processedData);
      var totales := SumarTotales(processedData);
      resumen := filas + [totales];
    }

    /** `registrarActividad(mensaje, tipo)` at time `fecha`. */
    method RegistrarActividad(mensaje: string, tipo: string, fecha: string)
      modifies this`activityLog
      ensures activityLog == Registrar(old(activityLog), Actividad(fecha, mensaje, tipo, "Sistema"))
      ensures old(Valid()) ==> Valid()
    {
      var actividad := Actividad(fecha, mensaje, tipo, "Sistema");
      activityLog := [actividad] + activityLog;
      if |activityLog| > MaxActividades {
        activityLog := activityLog[..|activityLog| - 1];
      }
    }

    /** The first half of `procesarArchivos`: the accumulators are emptied,
        then the Teams file (if chosen) and the Biometric file (if chosen)
        are processed, in that order. */
    method CargarArchivos(parse: string -> Option<Stamp>, teams: Option<seq<Row>>, bio: Option<seq<Row>>)
      modifies this`processedData, this`errors
      ensures processedData == Cargados(funcionarios, parse, teams, bio).events
      ensures errors == Cargados(funcionarios, parse, teams, bio).errors
    {
      processedData := [];
      errors := [];
      if teams.Some? {
        ProcesarTeams(parse, teams.value);
      }
      ghost var t := Archivo(Teams, funcionarios, parse, teams);
      assert processedData == t.events && errors == t.errors;
      if bio.Some? {
        ProcesarBiometrico(parse, bio.value);
      }
    }

    /** `procesarArchivos`: both files are loaded afresh, the events are
        sorted, the statistics computed and the completion logged. Nothing
        of the previous run survives. */
    method ProcesarArchivos(parse: string -> Option<Stamp>, teams: Option<seq<Row>>, bio: Option<seq<Row>>, ahora: string)
      requires Valid()
      modifies this`processedData, this`errors, this`activityLog
      ensures Valid()
      ensures processedData == Ordenar(Cargados(funcionarios, parse, teams, bio).events)
      ensures errors == Cargados(funcionarios, parse, teams, bio).errors
      ensures activityLog == Registrar(old(activityLog), Actividad(ahora, "Procesamiento de archivos completado", "info", "Sistema"))
    {
      CargarArchivos(parse, teams, bio);
      MostrarResultados();
      var porProyecto, porFuente := GenerarEstadisticas();
      RegistrarActividad("Procesamiento de archivos completado", "info", ahora);
    }

    /** The `coloresProyectos` table of `mostrarResultados`. */
    method ColoresProyectos() returns (colores: map<string, string>)
      ensures colores == Colores(proyectos)
    {
      colores := map[];
      var index := 0;
      while index < |proyectos|
        invariant 0 <= index <= |proyectos|
        invariant colores == Colores(proyectos[..index])
      {
        var proj := proyectos[index];
        colores := colores[proj.id := if proj.codigoColor != "" then proj.codigoColor else GetColorForIndex(index)];
        assert proyectos[..index + 1][..index] == proyectos[..index];
        index := index + 1;
      }
      assert proyectos[..|proyectos|] == proyectos;
    }
  }

  /** The per-project loop of `generarResumenExport`: each event adds to
      its project's row, a project's row being created on first sight. */
  method AgruparPorProyecto(datos: seq<Event>) returns (filas: seq<FilaResumen>)
    ensures filas == PorProyecto(datos)
  {
    filas := [];
    var i := 0;
    while i < |datos|
      invariant 0 <= i <= |datos|
      invariant filas == PorProyecto(datos[..i])
    {
      var item := datos[i];
      var k := BuscarFila(filas, item.proyecto);
      if k.Some? {
        filas := filas[k.value := Sumar(filas[k.value], item)];
      } else {
        filas := filas + [Sumar(NuevaFila(item.proyecto), item)];
      }
      assert datos[..i + 1][..i] == datos[..i];
      i := i + 1;
    }
    assert datos[..|datos|] == datos;
  }

  /** The totals loop of `generarResumenExport`: every event adds to the
      `TODOS` row. */
  method SumarTotales(datos: seq<Event>) returns (totales: FilaResumen)
    ensures totales == Totales(datos)
  {
    totales := FilaResumen("Totales", "TODOS", 0, 0, 0, 0, 0);
    var i := 0;
    while i < |datos|
      invariant 0 <= i <= |datos|
      invariant totales == Totales(datos[..i])
    {
      totales := Sumar(totales, datos[i]);
      assert datos[..i + 1][..i] == datos[..i];
      i := i + 1;
    }
    assert datos[..|datos|] == datos;
  }

  /** The body of the `forEach` in `procesarTeams`: what one row pushes
      onto `processedData` and onto `errors`, in push order. */
  method FilaTeams(funcs: seq<Employee>, parse: string -> Option<Stamp>, row: Row, index: nat)
    returns (nuevos: seq<Event>, fallos: seq<ProcessingError>)
    ensures Outcome(nuevos, fallos) == Fila(Teams, Resolver(Teams, funcs)(row), parse, row, index)
  {
    nuevos, fallos := [], [];
    var nombre := NombreTeams(row);
    var funcionario := Identity.BuscarFuncionarioPorNombre(funcs, nombre);
    assert funcionario == Resolver(Teams, funcs)(row);
    if funcionario.None? {
      fallos := fallos + [ProcessingError("Teams", index + 2, "Funcionario no encontrado: " + nombre, row)];
    } else {
      var f := funcionario.value;
      var entrada := EventoDeColumna(f, parse, row, "Hora de entrada", "Entrada");
      var salida := EventoDeColumna(f, parse, row, "Hora de salida", "Salida");
      nuevos := entrada + salida;
    }
  }

  /** One time column of a Teams row (`if (row[columna]) { const t =
      parsearFechaHora(row[columna]); if (t) processedData.push(...) }`). */
  method EventoDeColumna(f: Employee, parse: string -> Option<Stamp>, row: Row, columna: string, tipo: string)
    returns (nuevos: seq<Event>)
    ensures nuevos == EventoTeams(f, parse, row, columna, tipo)
  {
    nuevos := [];
    if columna in row && row[columna] != "" {
      var t := parse(row[columna]);
      if t.Some? {
        nuevos := nuevos + [NuevoEvento(f, t.value, tipo, Teams, row)];
      }
    }
  }

  /** The body of the `forEach` in `procesarBiometrico`: what one row pushes
      onto `processedData` and onto `errors`. */
  method FilaBiometrico(funcs: seq<Employee>, parse: string -> Option<Stamp>, row: Row, index: nat)
    returns (nuevos: seq<Event>, fallos: seq<ProcessingError>)
    ensures Outcome(nuevos, fallos) == Fila(Biometrico, Resolver(Biometrico, funcs)(row), parse, row, index)
  {
    nuevos, fallos := [], [];
    var idUsuario := IdUsuario(row);
    var funcionario := Identity.BuscarFuncionarioPorId(funcs, idUsuario);
    assert funcionario == Resolver(Biometrico, funcs)(row);
    assert Fila(Biometrico, funcionario, parse, row, index) == BiometricoRow(funcionario, idUsuario, parse, row, index);
    if funcionario.None? {
      fallos := fallos + [ProcessingError("Biométrico", index + 2, "ID de usuario no encontrado: " + idUsuario, row)];
    } else {
      var tiempo := PrimeraCelda(row, BiometricoTiempoColumnas);
      var evento := ParsearFechaHora(parse, tiempo);
      if evento.Some? {
        nuevos := nuevos + [NuevoEvento(funcionario.value, evento.value, TipoBiometrico(row), Biometrico, row)];
      }
    }
    assert Outcome(nuevos, fallos) == BiometricoRow(funcionario, idUsuario, parse, row, index);
  }

  /** The `forEach` of `procesarTeams`: the rows in order, each row's pushes
      after the previous row's. */
  method FilasTeams(funcs: seq<Employee>, parse: string -> Option<Stamp>, rows: seq<Row>)
    returns (nuevos: seq<Event>, fallos: seq<ProcessingError>)
    ensures nuevos == Run(Teams, Resolver(Teams, funcs), parse, rows, |rows|).events
    ensures fallos == Run(Teams, Resolver(Teams, funcs), parse, rows, |rows|).errors
  {
    nuevos, fallos := [], [];
    var index := 0;
    while index < |rows|
      invariant 0 <= index <= |rows|
      invariant Outcome(nuevos, fallos) == Run(Teams, Resolver(Teams, funcs), parse, rows, index)
    {
      var eventos, errores := FilaTeams(funcs, parse, rows[index], index);
      RunStep(Teams, Resolver(Teams, funcs), parse, rows, index);
      nuevos := nuevos + eventos;
      fallos := fallos + errores;
      index := index + 1;
    }
  }

  /** The `forEach` of `procesarBiometrico`: the rows in order, each row's pushes
      after the previous row's. */
  method FilasBiometrico(funcs: seq<Employee>, parse: string -> Option<Stamp>, rows: seq<Row>)
    returns (nuevos: seq<Event>, fallos: seq<ProcessingError>)
    ensures nuevos == Run(Biometrico, Resolver(Biometrico, funcs), parse, rows, |rows|).events
    ensures fallos == Run(Biometrico, Resolver(Biometrico, funcs), parse, rows, |rows|).errors
  {
    nuevos, fallos := [], [];
    var index := 0;
    while index < |rows|
      invariant 0 <= index <= |rows|
      invariant Outcome(nuevos, fallos) == Run(Biometrico, Resolver(Biometrico, funcs), parse, rows, index)
    {
      var eventos, errores := FilaBiometrico(funcs, parse, rows[index], index);
      RunStep(Biometrico, Resolver(Biometrico, funcs), parse, rows, index);
      nuevos := nuevos + eventos;
      fallos := fallos + errores;
      index := index + 1;
    }
  }

  /** The stable insertion sort `mostrarResultados` leaves in
      `processedData`. */
  method OrdenarPorInsercion(datos: seq<Event>) returns (ordenados: seq<Event>)
    ensures ordenados == Ordenar(datos)
  {
    ordenados := [];
    var i := 0;
    while i < |datos|
      invariant 0 <= i <= |datos|
      invariant ordenados == Ordenar(datos[..i])
    {
      var x := datos[i];
      var j := 0;
      while j < |ordenados| && !Antes(x, ordenados[j])
        invariant 0 <= j <= |ordenados|
        invariant forall k :: 0 <= k < j ==> !Antes(x, ordenados[k])
      {
        j := j + 1;
      }
      PosicionUnica(ordenados, x, j);
      ordenados := ordenados[..j] + [x] + ordenados[j..];
      assert datos[..i + 1][..i] == datos[..i];
      i := i + 1;
    }
    assert datos[..|datos|] == datos;
  }

  /** The loop's stopping point is the stable insertion position. */
  lemma PosicionUnica(t: seq<Event>, x: Event, j: nat)
    requires j <= |t|
    requires forall k :: 0 <= k < j ==> !Antes(x, t[k])
    requires j < |t| ==> Antes(x, t[j])
    ensures Posicion(t, x) == j
  {
  }

  /** `if (!stats[k]) stats[k] = 0; stats[k]++` over every item. */
  method Contador(xs: seq<string>) returns (t: seq<Cuenta>)
    ensures t == Tally(xs)
  {
    t := [];
    var i := 0;
    while i < |xs|
      invariant 0 <= i <= |xs|
      invariant t == Tally(xs[..i])
    {
      var k := BuscarCuenta(t, xs[i]);
      if k.Some? {
        t := t[k.value := Cuenta(xs[i], t[k.value].n + 1)];
      } else {
        t := t + [Cuenta(xs[i], 1)];
      }
      assert xs[..i + 1][..i] == xs[..i];
      i := i + 1;
    }
    assert xs[..|xs|] == xs;
  }

  /** The entry of `clave`, searched from the most recent. */
  method BuscarCuenta(t: seq<Cuenta>, clave: string) returns (r: Option<nat>)
    ensures r == IndiceCuenta(t, clave)
  {
    var j := |t|;
    assert t[..j] == t;
    while j > 0 && t[j - 1].clave != clave
      invariant 0 <= j <= |t|
      invariant IndiceCuenta(t[..j], clave) == IndiceCuenta(t, clave)
    {
      assert t[..j - 1] == t[..j][..j - 1];
      j := j - 1;
    }
    if j == 0 {
      r := None;
    } else {
      r := Some(j - 1);
    }
  }

  /** The row of `proyecto`, searched from the most recent. */
  method BuscarFila(filas: seq<FilaResumen>, proyecto: string) returns (r: Option<nat>)
    ensures r == IndiceProyecto(filas, proyecto)
  {
    var j := |filas|;
    assert filas[..j] == filas;
    while j > 0 && filas[j - 1].proyecto != proyecto
      invariant 0 <= j <= |filas|
      invariant IndiceProyecto(filas[..j], proyecto) == IndiceProyecto(filas, proyecto)
    {
      assert filas[..j - 1] == filas[..j][..j - 1];
      j := j - 1;
    }
    if j == 0 {
      r := None;
    } else {
      r := Some(j - 1);
    }
  }
}
