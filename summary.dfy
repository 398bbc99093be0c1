/** The counting done over the processed events: the per-project and
    per-source tallies of `generarEstadisticas` and the summary sheet of
    `generarResumenExport` (one row per project, in order of first
    appearance, then the `TODOS` totals row). JavaScript objects list keys
    that are array indices (`"7"`, `"42"`) first, in ascending order; that
    reordering is not modelled, so the order holds for other keys. The methods of
    `Marcaciones.Pagina` compute these with loops and are proved equal to
    the functions here. */
module Summary {
  import opened Wrappers
  import opened Text
  import opened Adapters

  // ---------------------------------------------------------------------
  // generarEstadisticas: occurrences per key, keys in first-seen order
  // ---------------------------------------------------------------------

  /** One entry of a tally object: a key and how often it was seen. */
  datatype Cuenta = Cuenta(clave: string, n: nat)

  /** Index of the entry for `clave`, if the tally has one. */
  function IndiceCuenta(t: seq<Cuenta>, clave: string): (r: Option<nat>)
    ensures r.Some? ==> r.value < |t| && t[r.value].clave == clave
    ensures r.None? ==> forall i :: 0 <= i < |t| ==> t[i].clave != clave
    decreases |t|
  {
    if |t| == 0 then None
    else if t[|t| - 1].clave == clave then Some(|t| - 1)
    else IndiceCuenta(t[..|t| - 1], clave)
  }

  /** `if (!stats[k]) stats[k] = 0; stats[k]++`. */
  function Contar(t: seq<Cuenta>, clave: string): seq<Cuenta> {
    match IndiceCuenta(t, clave)
    case Some(i) => t[i := Cuenta(clave, t[i].n + 1)]
    case None => t + [Cuenta(clave, 1)]
  }

  /** The tally of `xs`, keys in the order they were first seen (the order
      JavaScript keeps for keys that are not array indices). */
  function Tally(xs: seq<string>): seq<Cuenta>
    decreases |xs|
  {
    if |xs| == 0 then [] else Contar(Tally(xs[..|xs| - 1]), xs[|xs| - 1])
  }

  /** How many times `x` occurs in `xs`. */
  function Ocurrencias(xs: seq<string>, x: string): nat
    decreases |xs|
  {
    if |xs| == 0 then 0 else Ocurrencias(xs[..|xs| - 1], x) + (if xs[|xs| - 1] == x then 1 else 0)
  }

  function SumaCuentas(t: seq<Cuenta>): nat
    decreases |t|
  {
    if |t| == 0 then 0 else SumaCuentas(t[..|t| - 1]) + t[|t| - 1].n
  }

  lemma {:induction false} SumaCuentasIncremento(t: seq<Cuenta>, i: nat, c: Cuenta)
    requires i < |t| && c.n == t[i].n + 1
    ensures SumaCuentas(t[i := c]) == SumaCuentas(t) + 1
    decreases |t|
  {
    if i < |t| - 1 {
      SumaCuentasIncremento(t[..|t| - 1], i, c);
      assert t[i := c][..|t| - 1] == t[..|t| - 1][i := c];
    } else {
      assert t[i := c][..|t| - 1] == t[..|t| - 1];
    }
  }

  /** Keys of the tally are pairwise different. */
  lemma {:induction false} TallyDistinto(xs: seq<string>)
    ensures forall i, j :: 0 <= i < j < |Tally(xs)| ==> Tally(xs)[i].clave != Tally(xs)[j].clave
    decreases |xs|
  {
    if |xs| > 0 {
      TallyDistinto(xs[..|xs| - 1]);
    }
  }

  /** A key is in the tally exactly when it occurs among the items. */
  lemma {:induction false} TallyClaves(xs: seq<string>)
    ensures forall x :: x in xs <==> IndiceCuenta(Tally(xs), x).Some?
    decreases |xs|
  {
    if |xs| > 0 {
      var init := xs[..|xs| - 1];
      var x := xs[|xs| - 1];
      TallyClaves(init);
      assert xs == init + [x];
      var t := Tally(init);
      forall y
        ensures y in xs <==> IndiceCuenta(Tally(xs), y).Some?
      {
        if y in xs {
          if y == x {
            match IndiceCuenta(t, x)
            case Some(k) => assert Tally(xs)[k].clave == y;
            case None => assert Tally(xs)[|t|].clave == y;
          } else {
            assert y in init;
            var k := IndiceCuenta(t, y).value;
            assert Tally(xs)[k].clave == y;
          }
        }
        if IndiceCuenta(Tally(xs), y).Some? && y != x {
          var i := IndiceCuenta(Tally(xs), y).value;
          assert i < |t| && t[i].clave == y;
          assert IndiceCuenta(t, y).Some?;
        }
      }
    }
  }

  lemma {:induction false} OcurrenciasCero(xs: seq<string>, x: string)
    requires x !in xs
    ensures Ocurrencias(xs, x) == 0
    decreases |xs|
  {
    if |xs| > 0 {
      assert forall y :: y in xs[..|xs| - 1] ==> y in xs;
      OcurrenciasCero(xs[..|xs| - 1], x);
    }
  }

  /** Each entry holds the number of occurrences of its key. */
  lemma {:induction false} TallyCuentas(xs: seq<string>)
    ensures forall i :: 0 <= i < |Tally(xs)| ==> Tally(xs)[i].n == Ocurrencias(xs, Tally(xs)[i].clave) > 0
    decreases |xs|
  {
    if |xs| > 0 {
      var init := xs[..|xs| - 1];
      var x := xs[|xs| - 1];
      TallyCuentas(init);
      TallyDistinto(init);
      var t := Tally(init);
      if IndiceCuenta(t, x).None? {
        TallyClaves(init);
        OcurrenciasCero(init, x);
      }
    }
  }

  /** The counts add up to the number of items. */
  lemma {:induction false} TallySuma(xs: seq<string>)
    ensures SumaCuentas(Tally(xs)) == |xs|
    decreases |xs|
  {
    if |xs| > 0 {
      var init := xs[..|xs| - 1];
      var x := xs[|xs| - 1];
      TallySuma(init);
      var t := Tally(init);
      match IndiceCuenta(t, x)
      case Some(i) => SumaCuentasIncremento(t, i, Cuenta(x, t[i].n + 1));
      case None => assert (t + [Cuenta(x, 1)])[..|t|] == t;
    }
  }

  /** The projects of the events, in order (`item.proyecto`). */
  function Proyectos(data: seq<Event>): (r: seq<string>)
    ensures |r| == |data| && forall i :: 0 <= i < |data| ==> r[i] == data[i].proyecto
  {
    seq(|data|, i requires 0 <= i < |data| => data[i].proyecto)
  }

  /** The sources of the events, in order (`item.fuente`). */
  function Fuentes(data: seq<Event>): (r: seq<string>)
    ensures |r| == |data| && forall i :: 0 <= i < |data| ==> r[i] == data[i].fuente
  {
    seq(|data|, i requires 0 <= i < |data| => data[i].fuente)
  }

  // ---------------------------------------------------------------------
  // generarResumenExport
  // ---------------------------------------------------------------------

  /** One row of the summary sheet. */
  datatype FilaResumen = FilaResumen(
    categoria: string,
    proyecto: string,
    total: nat,
    entradas: nat,
    salidas: nat,
    teams: nat,
    biometrico: nat)

  predicate EsEntrada(e: Event) { Contains(Lower(e.tipo), "entrada") }
  predicate EsSalida(e: Event) { Contains(Lower(e.tipo), "salida") }
  predicate DesdeTeams(e: Event) { e.fuente == "Teams" }
  predicate DesdeBiometrico(e: Event) { e.fuente == "Biométrico" }

  function Uno(b: bool): nat { if b then 1 else 0 }

  /** One event counted into a row: the total and every counter whose
      condition the event meets go up by one. */
  function Sumar(r: FilaResumen, e: Event): FilaResumen {
    r.(total := r.total + 1,
       entradas := r.entradas + Uno(EsEntrada(e)),
       salidas := r.salidas + Uno(EsSalida(e)),
       teams := r.teams + Uno(DesdeTeams(e)),
       biometrico := r.biometrico + Uno(DesdeBiometrico(e)))
  }

  /** A fresh project row, all counters at zero. */
  function NuevaFila(proyecto: string): FilaResumen {
    FilaResumen("Por Proyecto", proyecto, 0, 0, 0, 0, 0)
  }

  /** Index of the row of `proyecto`, if there is one. */
  function IndiceProyecto(filas: seq<FilaResumen>, proyecto: string): (r: Option<nat>)
    ensures r.Some? ==> r.value < |filas| && filas[r.value].proyecto == proyecto
    ensures r.None? ==> forall i :: 0 <= i < |filas| ==> filas[i].proyecto != proyecto
    decreases |filas|
  {
    if |filas| == 0 then None
    else if filas[|filas| - 1].proyecto == proyecto then Some(|filas| - 1)
    else IndiceProyecto(filas[..|filas| - 1], proyecto)
  }

  /** One iteration of the per-project loop: the project's row is created on
      first sight, then counted into. */
  function Acumular(filas: seq<FilaResumen>, e: Event): seq<FilaResumen> {
    match IndiceProyecto(filas, e.proyecto)
    case Some(i) => filas[i := Sumar(filas[i], e)]
    case None => filas + [Sumar(NuevaFila(e.proyecto), e)]
  }

  /** `Object.values(porProyecto)` after the loop over the events. */
  function PorProyecto(data: seq<Event>): seq<FilaResumen>
    decreases |data|
  {
    if |data| == 0 then [] else Acumular(PorProyecto(data[..|data| - 1]), data[|data| - 1])
  }

  /** The events of one project, counted into a fresh row of that project. */
  function Agregado(data: seq<Event>, proyecto: string): FilaResumen
    decreases |data|
  {
    if |data| == 0 then NuevaFila(proyecto)
    else
      var r := Agregado(data[..|data| - 1], proyecto);
      if data[|data| - 1].proyecto == proyecto then Sumar(r, data[|data| - 1]) else r
  }

  /** The totals row: the total is the number of events, each counter the
      number of events meeting its condition (the `filter(...).length`s). */
  function Totales(data: seq<Event>): FilaResumen
    decreases |data|
  {
    if |data| == 0 then FilaResumen("Totales", "TODOS", 0, 0, 0, 0, 0)
    else Sumar(Totales(data[..|data| - 1]), data[|data| - 1])
  }

  /** The whole summary sheet. */
  function Resumen(data: seq<Event>): seq<FilaResumen> {
    PorProyecto(data) + [Totales(data)]
  }

  /** The counters of several rows added up field by field, as a totals row. */
  function SumaFilas(filas: seq<FilaResumen>): FilaResumen
    decreases |filas|
  {
    if |filas| == 0 then FilaResumen("Totales", "TODOS", 0, 0, 0, 0, 0)
    else
      var s := SumaFilas(filas[..|filas| - 1]);
      var r := filas[|filas| - 1];
      FilaResumen("Totales", "TODOS", s.total + r.total, s.entradas + r.entradas, s.salidas + r.salidas,
                  s.teams + r.teams, s.biometrico + r.biometrico)
  }

  /** Counting an event into the sum is counting it into one of the rows. */
  lemma {:induction false} SumaFilasSumar(filas: seq<FilaResumen>, i: nat, e: Event)
    requires i < |filas|
    ensures SumaFilas(filas[i := Sumar(filas[i], e)]) == Sumar(SumaFilas(filas), e)
    decreases |filas|
  {
    if i < |filas| - 1 {
      SumaFilasSumar(filas[..|filas| - 1], i, e);
      assert filas[i := Sumar(filas[i], e)][..|filas| - 1] == filas[..|filas| - 1][i := Sumar(filas[i], e)];
    } else {
      assert filas[i := Sumar(filas[i], e)][..|filas| - 1] == filas[..|filas| - 1];
    }
  }

  /** Every counter is at most the row's total, and no event is counted as
      both Teams and Biometric. */
  predicate Acotada(r: FilaResumen) {
    r.entradas <= r.total && r.salidas <= r.total && r.teams + r.biometrico <= r.total
  }

  /** One row per project: the projects of the rows are pairwise different. */
  lemma {:induction false} PorProyectoDistinto(data: seq<Event>)
    ensures forall i, j :: 0 <= i < j < |PorProyecto(data)| ==> PorProyecto(data)[i].proyecto != PorProyecto(data)[j].proyecto
    decreases |data|
  {
    if |data| > 0 {
      PorProyectoDistinto(data[..|data| - 1]);
    }
  }

  /** A project has a row exactly when one of the events belongs to it. */
  lemma {:induction false} PorProyectoCubre(data: seq<Event>)
    ensures forall p :: IndiceProyecto(PorProyecto(data), p).Some? <==> exists e :: e in data && e.proyecto == p
    decreases |data|
  {
    if |data| > 0 {
      var init := data[..|data| - 1];
      var e := data[|data| - 1];
      PorProyectoCubre(init);
      assert data == init + [e];
      var f := PorProyecto(init);
      forall p
        ensures IndiceProyecto(PorProyecto(data), p).Some? <==> exists d :: d in data && d.proyecto == p
      {
        if exists d :: d in data && d.proyecto == p {
          if p == e.proyecto {
            match IndiceProyecto(f, p)
            case Some(k) => assert PorProyecto(data)[k].proyecto == p;
            case None => assert PorProyecto(data)[|f|].proyecto == p;
          } else {
            var d :| d in data && d.proyecto == p;
            assert d in init;
            var k := IndiceProyecto(f, p).value;
            assert PorProyecto(data)[k].proyecto == p;
          }
        }
        if IndiceProyecto(PorProyecto(data), p).Some? && p != e.proyecto {
          var i := IndiceProyecto(PorProyecto(data), p).value;
          assert i < |f| && f[i].proyecto == p;
          assert IndiceProyecto(f, p).Some?;
          var d :| d in init && d.proyecto == p;
          assert d in data;
        }
      }
    }
  }

  /** Each project row holds exactly the counts of that project's events. */
  lemma {:induction false} PorProyectoAgregado(data: seq<Event>)
    ensures forall i :: 0 <= i < |PorProyecto(data)| ==>
      PorProyecto(data)[i] == Agregado(data, PorProyecto(data)[i].proyecto) && PorProyecto(data)[i].total > 0
    decreases |data|
  {
    if |data| > 0 {
      var init := data[..|data| - 1];
      var e := data[|data| - 1];
      PorProyectoAgregado(init);
      PorProyectoDistinto(init);
      var f := PorProyecto(init);
      if IndiceProyecto(f, e.proyecto).None? {
        PorProyectoCubre(init);
        AgregadoAusente(init, e.proyecto);
      }
    }
  }

  /** The project rows together account for every event: their counters
      add up to the totals row. */
  lemma {:induction false} PorProyectoSuma(data: seq<Event>)
    ensures SumaFilas(PorProyecto(data)) == Totales(data)
    decreases |data|
  {
    if |data| > 0 {
      var init := data[..|data| - 1];
      var e := data[|data| - 1];
      PorProyectoSuma(init);
      var f := PorProyecto(init);
      match IndiceProyecto(f, e.proyecto)
      case Some(k) => SumaFilasSumar(f, k, e);
      case None => assert (f + [Sumar(NuevaFila(e.proyecto), e)])[..|f|] == f;
    }
  }

  /** A project none of whose events is in `data` gets an empty row. */
  lemma {:induction false} AgregadoAusente(data: seq<Event>, proyecto: string)
    requires !exists e :: e in data && e.proyecto == proyecto
    ensures Agregado(data, proyecto) == NuevaFila(proyecto)
    decreases |data|
  {
    if |data| > 0 {
      assert data[|data| - 1] in data;
      var init := data[..|data| - 1];
      assert forall e :: e in init ==> e in data;
      AgregadoAusente(init, proyecto);
    }
  }

  /** Counting keeps every counter within the total. */
  lemma {:induction false} AgregadoAcotado(data: seq<Event>, proyecto: string)
    ensures Acotada(Agregado(data, proyecto))
    ensures Agregado(data, proyecto).proyecto == proyecto && Agregado(data, proyecto).categoria == "Por Proyecto"
    decreases |data|
  {
    if |data| > 0 {
      AgregadoAcotado(data[..|data| - 1], proyecto);
    }
  }

  /** `data.filter(c)`: the events meeting `c`, in order. */
  function Filtradas(data: seq<Event>, c: Event -> bool): (r: seq<Event>)
    ensures |r| <= |data|
    ensures forall e :: e in r <==> e in data && c(e)
    decreases |data|
  {
    if |data| == 0 then []
    else (if c(data[0]) then [data[0]] else []) + Filtradas(data[1..], c)
  }

  /** Filtering an event appended at the end appends it to the filtered
      events exactly when it meets the condition. */
  lemma {:induction false} FiltradasAlFinal(data: seq<Event>, e: Event, c: Event -> bool)
    ensures Filtradas(data + [e], c) == Filtradas(data, c) + (if c(e) then [e] else [])
    decreases |data|
  {
    if |data| == 0 {
      assert data + [e] == [e];
      assert [e][1..] == [];
    } else {
      assert (data + [e])[0] == data[0];
      assert (data + [e])[1..] == data[1..] + [e];
      FiltradasAlFinal(data[1..], e, c);
    }
  }

  /** The totals row holds the counts the summary sheet promises: the total
      is the number of events and each counter is the length of the matching
      `filter`; every counter is within the total. */
  lemma {:induction false} TotalesCuentan(data: seq<Event>)
    ensures Totales(data).total == |data|
    ensures Totales(data).entradas == |Filtradas(data, EsEntrada)|
    ensures Totales(data).salidas == |Filtradas(data, EsSalida)|
    ensures Totales(data).teams == |Filtradas(data, DesdeTeams)|
    ensures Totales(data).biometrico == |Filtradas(data, DesdeBiometrico)|
    ensures Acotada(Totales(data))
    decreases |data|
  {
    if |data| > 0 {
      var init, e := data[..|data| - 1], data[|data| - 1];
      TotalesCuentan(init);
      assert data == init + [e];
      FiltradasAlFinal(init, e, EsEntrada);
      FiltradasAlFinal(init, e, EsSalida);
      FiltradasAlFinal(init, e, DesdeTeams);
      FiltradasAlFinal(init, e, DesdeBiometrico);
    }
  }

  /** The summary sheet: the last row is the `TODOS` totals row, whose total
      is the number of events; the per-project totals (and every other
      counter) add up to the totals row; in every row the entry and exit
      counts are at most the row's total. */
  lemma ResumenCorrecto(data: seq<Event>)
    ensures var r := Resumen(data);
      && |r| >= 1
      && r[|r| - 1].proyecto == "TODOS" && r[|r| - 1].categoria == "Totales"
      && r[|r| - 1].total == |data|
      && SumaFilas(r[..|r| - 1]) == r[|r| - 1]
      && (forall i :: 0 <= i < |r| ==> Acotada(r[i]))
  {
    var r := Resumen(data);
    PorProyectoSuma(data);
    PorProyectoAgregado(data);
    TotalesCuentan(data);
    assert r[..|r| - 1] == PorProyecto(data);
    forall i | 0 <= i < |r| - 1
      ensures Acotada(r[i])
    {
      AgregadoAcotado(data, r[i].proyecto);
    }
  }

  /** The per-project tally of `generarEstadisticas` lists the same projects
      in the same order, with the same totals, as the summary sheet. */
  lemma {:induction false} TallyProyectosCoincide(data: seq<Event>)
    ensures |Tally(Proyectos(data))| == |PorProyecto(data)|
    ensures forall i :: 0 <= i < |PorProyecto(data)| ==>
      Tally(Proyectos(data))[i] == Cuenta(PorProyecto(data)[i].proyecto, PorProyecto(data)[i].total)
    decreases |data|
  {
    if |data| > 0 {
      var init := data[..|data| - 1];
      TallyProyectosCoincide(init);
      assert Proyectos(data)[..|data| - 1] == Proyectos(init);
      var t := Tally(Proyectos(init));
      var f := PorProyecto(init);
      var p := data[|data| - 1].proyecto;
      assert forall i :: 0 <= i < |f| ==> t[i].clave == f[i].proyecto;
      IndicesCoinciden(t, f, p);
    }
  }

  lemma {:induction false} IndicesCoinciden(t: seq<Cuenta>, f: seq<FilaResumen>, p: string)
    requires |t| == |f| && forall i :: 0 <= i < |f| ==> t[i].clave == f[i].proyecto
    ensures IndiceCuenta(t, p) == IndiceProyecto(f, p)
    decreases |t|
  {
    if |t| > 0 {
      IndicesCoinciden(t[..|t| - 1], f[..|f| - 1], p);
    }
  }
}
