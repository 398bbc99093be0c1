/** The configuration tree (`config.js`): a JSON value, the deep merge that
    lays a saved or imported configuration over the defaults, reading and
    writing a value by a dotted path, the settings form's save, and the two
    helpers that convert between stored hours and time inputs. */
module Config {
  import opened Wrappers
  import opened Text

  /** A JSON value. Numbers are integers here. */
  datatype Json =
    | Null
    | Bool(b: bool)
    | Num(n: int)
    | Str(s: string)
    | Arr(items: seq<Json>)
    | Obj(fields: map<string, Json>)

  /** `typeof v === 'object'` for a non-null value: an object or an array. */
  predicate EsContenedor(v: Json) {
    v.Obj? || v.Arr?
  }

  /** The own fields `{...v}` copies: an object's fields; nothing otherwise
      (strings and arrays spread their indices in JavaScript, which this
      model does not represent). */
  function Campos(v: Json): map<string, Json> {
    if v.Obj? then v.fields else map[]
  }

  // ---------------------------------------------------------------------
  // mergeConfiguraciones
  // ---------------------------------------------------------------------

  /** `mergeConfiguraciones(base, p)`: a copy of `base` where every key of
      `p` holding an object is merged recursively into `base[key] || {}`,
      and every other key of `p` takes `p`'s value as it is. */
  function Merge(base: Json, p: map<string, Json>): (r: map<string, Json>)
    ensures r.Keys == Campos(base).Keys + p.Keys
    decreases Obj(p)
  {
    var b := Campos(base);
    map k | k in b.Keys + p.Keys ::
      if k in p then
        (if p[k].Obj? then Obj(Merge(if k in b then b[k] else Null, p[k].fields)) else p[k])
      else b[k]
  }

  /** A key of `p` whose value is not an object (a falsy value, an array, a
      string, a number) overrides the base as it is; a key only the base has
      keeps the base's value. */
  lemma MergeLiteralYBase(base: Json, p: map<string, Json>, k: string)
    ensures k in p && !p[k].Obj? ==> Merge(base, p)[k] == p[k]
    ensures k !in p && k in Campos(base) ==> Merge(base, p)[k] == Campos(base)[k]
  {
  }

  /** Merging nothing gives a copy of the base's fields. */
  lemma MergeVacio(base: Json)
    ensures Merge(base, map[]) == Campos(base)
  {
  }

  /** Merging the same configuration twice is the same as merging it once. */
  lemma {:induction false} MergeIdempotente(base: Json, p: map<string, Json>)
    ensures Merge(Obj(Merge(base, p)), p) == Merge(base, p)
    decreases Obj(p)
  {
    var m := Merge(base, p);
    var b := Campos(base);
    forall k | k in p && p[k].Obj?
      ensures Merge(Obj(m), p)[k] == m[k]
    {
      var bk := if k in b then b[k] else Null;
      MergeIdempotente(bk, p[k].fields);
    }
  }

  /** Every leaf that `p` defines (a value reached in `p` that is not an
      object) is found at the same path in the merged configuration. */
  lemma {:induction false} MergeHojaPersonalizada(base: Json, p: map<string, Json>, camino: seq<string>, v: Json)
    requires Valor(Obj(p), camino) == Some(v) && !v.Obj?
    ensures Valor(Obj(Merge(base, p)), camino) == Some(v)
    decreases Obj(p)
  {
    var k := camino[0];
    assert k in p;
    var m := Merge(base, p);
    if p[k].Obj? {
      var b := Campos(base);
      var bk := if k in b then b[k] else Null;
      assert Valor(Obj(p[k].fields), camino[1..]) == Some(v);
      MergeHojaPersonalizada(bk, p[k].fields, camino[1..], v);
    }
  }

  /** Every step of `camino` in `v` goes through an object that has the key. */
  predicate PorObjetos(v: Json, camino: seq<string>)
    decreases |camino|
  {
    |camino| == 0 || (v.Obj? && camino[0] in v.fields && PorObjetos(v.fields[camino[0]], camino[1..]))
  }

  /** `p` does not reach the end of `camino`: along the path it either lacks
      the key or holds an object the rest of the path goes into. */
  predicate NoAlcanza(p: map<string, Json>, camino: seq<string>)
    decreases |camino|
  {
    |camino| >= 1 &&
    (camino[0] !in p || (p[camino[0]].Obj? && NoAlcanza(p[camino[0]].fields, camino[1..])))
  }

  /** The merge is deep: a base value that the override does not reach
      survives, even under keys the override also holds as objects. */
  lemma {:induction false} MergeHojaBase(base: Json, p: map<string, Json>, camino: seq<string>)
    requires PorObjetos(base, camino) && NoAlcanza(p, camino)
    ensures Valor(Obj(Merge(base, p)), camino) == Valor(base, camino)
    decreases |camino|
  {
    var k := camino[0];
    var m := Merge(base, p);
    if k in p {
      MergeHojaBase(base.fields[k], p[k].fields, camino[1..]);
      assert m[k] == Obj(Merge(base.fields[k], p[k].fields));
    } else {
      assert m[k] == base.fields[k];
    }
  }

  // ---------------------------------------------------------------------
  // Paths: obtener and establecer
  // ---------------------------------------------------------------------

  /** The array index a property key names: a canonical decimal numeral. */
  function IndiceArreglo(k: string): Option<nat> {
    if |k| > 0 && AllDigits(k) && (|k| == 1 || k[0] != '0') then Some(DigitsValue(k)) else None
  }

  /** `v[k]`, with `None` for `undefined`. */
  function Paso(v: Json, k: string): Option<Json> {
    match v
    case Obj(m) => if k in m then Some(m[k]) else None
    case Arr(xs) =>
      (match IndiceArreglo(k)
       case Some(i) => if i < |xs| then Some(xs[i]) else None
       case None => None)
    case _ => None
  }

  /** The value `obtener` reaches by following `claves` from `v`; `None`
      (the source's `null`) as soon as a segment is undefined. */
  function Valor(v: Json, claves: seq<string>): Option<Json>
    decreases |claves|
  {
    if claves == [] then Some(v)
    else
      match Paso(v, claves[0])
      case None => None
      case Some(h) => Valor(h, claves[1..])
  }

  /** `v[k] = x` on an object or an array; a write to an array at a key that
      is not one of its indices leaves the array unchanged. */
  function Poner(v: Json, k: string, x: Json): Json {
    match v
    case Obj(m) => Obj(m[k := x])
    case Arr(xs) =>
      (match IndiceArreglo(k)
       case Some(i) => if i < |xs| then Arr(xs[i := x]) else v
       case None => v)
    case _ => v
  }

  /** The container `establecer` steps into at `k`: the existing object or
      array, or a fresh `{}` replacing a missing, falsy or primitive value. */
  function Intermedio(v: Json, k: string): (r: Json)
    ensures EsContenedor(r)
    ensures Paso(v, k).Some? && EsContenedor(Paso(v, k).value) ==> r == Paso(v, k).value
    ensures !(Paso(v, k).Some? && EsContenedor(Paso(v, k).value)) ==> r == Obj(map[])
  {
    match Paso(v, k)
    case Some(h) => if EsContenedor(h) then h else Obj(map[])
    case None => Obj(map[])
  }

  /** The configuration after `establecer(claves joined by '.', x)`. */
  function Fijar(v: Json, claves: seq<string>, x: Json): (r: Json)
    requires |claves| >= 1
    ensures v.Obj? ==> r.Obj?
    decreases |claves|
  {
    if |claves| == 1 then Poner(v, claves[0], x)
    else Poner(v, claves[0], Fijar(Intermedio(v, claves[0]), claves[1..], x))
  }

  /** The path can be written: every array met on the way is entered at one
      of its indices. */
  ghost predicate Escribible(v: Json, claves: seq<string>)
    requires |claves| >= 1
    decreases |claves|
  {
    && (v.Arr? ==> Paso(v, claves[0]).Some?)
    && (|claves| > 1 ==> Escribible(Intermedio(v, claves[0]), claves[1..]))
  }

  lemma PasoPoner(v: Json, k: string, x: Json)
    requires v.Obj? || (v.Arr? && Paso(v, k).Some?)
    ensures Paso(Poner(v, k, x), k) == Some(x)
  {
  }

  /** `establecer(key, x)` followed by `obtener(key)` gives `x`. */
  lemma {:induction false} ValorTrasFijar(v: Json, claves: seq<string>, x: Json)
    requires |claves| >= 1 && EsContenedor(v) && Escribible(v, claves)
    ensures Valor(Fijar(v, claves, x), claves) == Some(x)
    decreases |claves|
  {
    var k := claves[0];
    if |claves| == 1 {
      PasoPoner(v, k, x);
    } else {
      var y := Fijar(Intermedio(v, k), claves[1..], x);
      PasoPoner(v, k, y);
      ValorTrasFijar(Intermedio(v, k), claves[1..], x);
    }
  }

  /** Two paths that agree up to a point where the first one's containers all
      exist, and then part inside an object. */
  ghost predicate Divergen(v: Json, claves: seq<string>, otro: seq<string>)
    decreases |claves|
  {
    && |claves| >= 1 && |otro| >= 1
    && if otro[0] != claves[0] then v.Obj?
       else
         && |claves| >= 2
         && EsContenedor(v)
         && Paso(v, claves[0]).Some? && EsContenedor(Paso(v, claves[0]).value)
         && Divergen(Paso(v, claves[0]).value, claves[1..], otro[1..])
  }

  /** Writing one path leaves every value reached by a path that parts from
      it inside an object as it was. */
  lemma {:induction false} FijarNoToca(v: Json, claves: seq<string>, x: Json, otro: seq<string>)
    requires Divergen(v, claves, otro)
    ensures Valor(Fijar(v, claves, x), otro) == Valor(v, otro)
    decreases |claves|
  {
    var k := claves[0];
    if otro[0] == k {
      var h := Paso(v, k).value;
      assert Intermedio(v, k) == h;
      var y := Fijar(h, claves[1..], x);
      PasoPoner(v, k, y);
      FijarNoToca(h, claves[1..], x, otro[1..]);
    }
  }

  /** Top-level keys off the path keep their values, and the only key
      added is the path's first segment. */
  lemma FijarOtrasClaves(v: Json, claves: seq<string>, x: Json)
    requires |claves| >= 1 && v.Obj?
    ensures Fijar(v, claves, x).fields.Keys == v.fields.Keys + {claves[0]}
    ensures forall k :: k in v.fields && k != claves[0] ==> Fijar(v, claves, x).fields[k] == v.fields[k]
  {
  }

  /** The loop of `obtener`. */
  method ObtenerEn(raiz: Json, claves: seq<string>) returns (r: Option<Json>)
    ensures r == Valor(raiz, claves)
  {
    var valor := raiz;
    var i := 0;
    while i < |claves|
      invariant 0 <= i <= |claves|
      invariant Valor(raiz, claves) == Valor(valor, claves[i..])
    {
      assert claves[i..][1..] == claves[i + 1..];
      var siguiente := Paso(valor, claves[i]);
      if siguiente.None? {
        return None;
      }
      valor := siguiente.value;
      i := i + 1;
    }
    return Some(valor);
  }

  /** The loop of `establecer`: walk down the path, putting `{}` in place of
      every missing or primitive intermediate, then assign the value at the
      last segment. The walk keeps the containers met; the assignment is
      carried back up through them. */
  method FijarEn(raiz: Json, claves: seq<string>, x: Json) returns (r: Json)
    requires |claves| >= 1
    ensures r == Fijar(raiz, claves, x)
  {
    var pila := [raiz];
    var i := 0;
    while i < |claves| - 1
      invariant 0 <= i <= |claves| - 1
      invariant |pila| == i + 1 && pila[0] == raiz
      invariant forall j :: 0 <= j < i ==> pila[j + 1] == Intermedio(pila[j], claves[j])
    {
      pila := pila + [Intermedio(pila[i], claves[i])];
      i := i + 1;
    }
    r := x;
    var j := |claves|;
    while j > 0
      invariant 0 <= j <= |claves|
      invariant j == |claves| ==> r == x
      invariant j < |claves| ==> r == Fijar(pila[j], claves[j..], x)
    {
      assert claves[j - 1..][1..] == claves[j..];
      r := Poner(pila[j - 1], claves[j - 1], r);
      j := j - 1;
    }
  }

  // ---------------------------------------------------------------------
  // The hour helpers of the settings form
  // ---------------------------------------------------------------------

  /** `formatHoraParaInput(horaStr)`: `'08:30'` for an empty value, the
      first five characters otherwise. */
  function FormatHoraParaInput(horaStr: string): (r: string)
    ensures |r| <= 5
    ensures horaStr != "" ==> r <= horaStr && |r| == (if |horaStr| < 5 then |horaStr| else 5)
    ensures horaStr == "" ==> r == "08:30"
  {
    if horaStr == "" then "08:30"
    else if |horaStr| < 5 then horaStr
    else horaStr[..5]
  }

  /** `parseHoraDesdeInput(horaInput)`: the input with seconds `:00`. */
  function ParseHoraDesdeInput(horaInput: string): (r: string)
    ensures |r| == |horaInput| + 3 && horaInput <= r
    ensures r[|horaInput|..] == ":00"
  {
    horaInput + ":00"
  }

  /** A five-character time input survives being stored and shown again. */
  lemma HoraIdaYVuelta(horaInput: string)
    requires |horaInput| == 5
    ensures FormatHoraParaInput(ParseHoraDesdeInput(horaInput)) == horaInput
  {
    assert (horaInput + ":00")[..5] == horaInput;
  }

  /** A stored `HH:MM:00` hour survives being shown and stored again. */
  lemma HoraVueltaEIda(horaStr: string)
    requires |horaStr| == 8 && horaStr[5..] == ":00"
    ensures ParseHoraDesdeInput(FormatHoraParaInput(horaStr)) == horaStr
  {
    assert horaStr == horaStr[..5] + horaStr[5..];
  }

  // ---------------------------------------------------------------------
  // guardarDesdeUI
  // ---------------------------------------------------------------------

  /** The values the settings form hands to `guardarDesdeUI`. */
  datatype FormularioConfig = FormularioConfig(
    horaEntrada: string,
    horaSalida: string,
    toleranciaEntrada: string,
    toleranciaSalida: string,
    validaciones: map<string, Json>,
    exportacion: map<string, Json>,
    ui: map<string, Json>)

  /** `parseInt(s)` as saved: a number, or `null`, which is how JSON writes
      `NaN`. */
  function Entero(s: string): Json {
    match ParseInt(s)
    case Some(n) => Num(n)
    case None => Null
  }

  /** The value at a path, or `null` when it is missing. */
  function ValorONull(v: Json, claves: seq<string>): Json {
    match Valor(v, claves)
    case Some(x) => x
    case None => Null
  }

  /** The path leads to an object or an array, whose properties can be set. */
  predicate Disponible(v: Json, claves: seq<string>) {
    Valor(v, claves).Some? && EsContenedor(Valor(v, claves).value)
  }

  /** `{...actual, ...nuevos}`: the form's keys win over the existing ones. */
  function Combinar(actual: Json, nuevos: map<string, Json>): Json {
    Obj(Campos(actual) + nuevos)
  }

  const Horarios := ["procesamiento", "horarios"]
  const Validaciones := ["procesamiento", "validaciones"]
  const Exportacion := ["archivos", "exportacion"]

  /** The four assignments to `procesamiento.horarios`. */
  function PasoHorarios(c: Json, form: FormularioConfig): Json {
    var c1 := Fijar(c, Horarios + ["horaEntradaEstandar"], Str(form.horaEntrada));
    var c2 := Fijar(c1, Horarios + ["horaSalidaEstandar"], Str(form.horaSalida));
    var c3 := Fijar(c2, Horarios + ["toleranciaEntrada"], Entero(form.toleranciaEntrada));
    Fijar(c3, Horarios + ["toleranciaSalida"], Entero(form.toleranciaSalida))
  }

  function PasoValidaciones(c: Json, form: FormularioConfig): Json {
    Fijar(c, Validaciones, Combinar(ValorONull(c, Validaciones), form.validaciones))
  }

  function PasoExportacion(c: Json, form: FormularioConfig): Json {
    Fijar(c, Exportacion, Combinar(ValorONull(c, Exportacion), form.exportacion))
  }

  function PasoUi(c: Json, form: FormularioConfig): Json {
    Fijar(c, ["ui"], Combinar(ValorONull(c, ["ui"]), form.ui))
  }

  /** The four writes to `procesamiento.horarios` and the one to
      `procesamiento.validaciones` leave every path outside `procesamiento`
      alone. */
  lemma PasosProcesamientoNoTocan(c: Json, form: FormularioConfig, otro: seq<string>)
    requires c.Obj? && |otro| >= 1 && otro[0] != "procesamiento"
    ensures Valor(PasoValidaciones(PasoHorarios(c, form), form), otro) == Valor(c, otro)
  {
    var c1 := Fijar(c, Horarios + ["horaEntradaEstandar"], Str(form.horaEntrada));
    var c2 := Fijar(c1, Horarios + ["horaSalidaEstandar"], Str(form.horaSalida));
    var c3 := Fijar(c2, Horarios + ["toleranciaEntrada"], Entero(form.toleranciaEntrada));
    var c4 := Fijar(c3, Horarios + ["toleranciaSalida"], Entero(form.toleranciaSalida));
    FijarNoToca(c, Horarios + ["horaEntradaEstandar"], Str(form.horaEntrada), otro);
    FijarNoToca(c1, Horarios + ["horaSalidaEstandar"], Str(form.horaSalida), otro);
    FijarNoToca(c2, Horarios + ["toleranciaEntrada"], Entero(form.toleranciaEntrada), otro);
    FijarNoToca(c3, Horarios + ["toleranciaSalida"], Entero(form.toleranciaSalida), otro);
    FijarNoToca(c4, Validaciones, Combinar(ValorONull(c4, Validaciones), form.validaciones), otro);
  }

  /** `procesamiento` is an object holding these values. */
  predicate ProcesamientoObjeto(c: Json) {
    c.Obj? && "procesamiento" in c.fields && c.fields["procesamiento"].Obj?
  }

  /** One write under `procesamiento.horarios` keeps `procesamiento` an
      object and leaves `procesamiento.validaciones` alone. */
  lemma HorarioNoTocaValidaciones(c: Json, k: string, x: Json)
    requires ProcesamientoObjeto(c)
    ensures ProcesamientoObjeto(Fijar(c, Horarios + [k], x))
    ensures Valor(Fijar(c, Horarios + [k], x), Validaciones) == Valor(c, Validaciones)
  {
    FijarNoToca(c, Horarios + [k], x, Validaciones);
  }

  /** The writes to `procesamiento.horarios` leave `procesamiento` an object
      and `procesamiento.validaciones` as it was. */
  lemma PasoHorariosNoTocaValidaciones(c: Json, form: FormularioConfig)
    requires ProcesamientoObjeto(c)
    ensures ProcesamientoObjeto(PasoHorarios(c, form))
    ensures Valor(PasoHorarios(c, form), Validaciones) == Valor(c, Validaciones)
  {
    var c1 := Fijar(c, Horarios + ["horaEntradaEstandar"], Str(form.horaEntrada));
    var c2 := Fijar(c1, Horarios + ["horaSalidaEstandar"], Str(form.horaSalida));
    var c3 := Fijar(c2, Horarios + ["toleranciaEntrada"], Entero(form.toleranciaEntrada));
    HorarioNoTocaValidaciones(c, "horaEntradaEstandar", Str(form.horaEntrada));
    HorarioNoTocaValidaciones(c1, "horaSalidaEstandar", Str(form.horaSalida));
    HorarioNoTocaValidaciones(c2, "toleranciaEntrada", Entero(form.toleranciaEntrada));
    HorarioNoTocaValidaciones(c3, "toleranciaSalida", Entero(form.toleranciaSalida));
  }

  /** `guardarDesdeUI(formData)`: the new configuration and whether it
      succeeded. Reading `procesamiento.horarios` or `archivos` where there
      is no object throws, and the steps done before the throw remain. */
  function GuardarUI(c: Json, form: FormularioConfig): (Json, bool)
    requires c.Obj?
  {
    if !Disponible(c, Horarios) then (c, false)
    else TrasHorarios(PasoHorarios(c, form), form)
  }

  /** The steps of `guardarDesdeUI` after the four hour fields. */
  function TrasHorarios(c: Json, form: FormularioConfig): (Json, bool)
    requires c.Obj?
  {
    var c1 := PasoValidaciones(c, form);
    if !Disponible(c1, ["archivos"]) then (c1, false)
    else (PasoUi(PasoExportacion(c1, form), form), true)
  }

  /** The save succeeds exactly when `procesamiento.horarios` and `archivos`
      both hold an object or an array. */
  lemma GuardarUIExito(c: Json, form: FormularioConfig)
    requires c.Obj?
    ensures GuardarUI(c, form).1 <==> Disponible(c, Horarios) && Disponible(c, ["archivos"])
  {
    if Disponible(c, Horarios) {
      PasosProcesamientoNoTocan(c, form, ["archivos"]);
    }
  }

  /** After a successful save, `ui` is the old `ui` with the form's keys laid
      over it. */
  lemma GuardarUIUi(c: Json, form: FormularioConfig)
    requires c.Obj? && GuardarUI(c, form).1
    ensures Valor(GuardarUI(c, form).0, ["ui"]) == Some(Combinar(ValorONull(c, ["ui"]), form.ui))
  {
    var c1 := PasoHorarios(c, form);
    var c2 := PasoValidaciones(c1, form);
    var c3 := PasoExportacion(c2, form);
    UiIntacto(c, form);
    assert ValorONull(c3, ["ui"]) == ValorONull(c, ["ui"]);
    ValorTrasFijar(c3, ["ui"], Combinar(ValorONull(c3, ["ui"]), form.ui));
  }

  /** The steps before the `ui` one leave `ui` alone. */
  lemma UiIntacto(c: Json, form: FormularioConfig)
    requires c.Obj?
    ensures Valor(PasoExportacion(PasoValidaciones(PasoHorarios(c, form), form), form), ["ui"]) == Valor(c, ["ui"])
  {
    var c5 := PasoValidaciones(PasoHorarios(c, form), form);
    PasosProcesamientoNoTocan(c, form, ["ui"]);
    FijarNoToca(c5, Exportacion, Combinar(ValorONull(c5, Exportacion), form.exportacion), ["ui"]);
  }

  /** Once `procesamiento.horarios` was found, `procesamiento.validaciones`
      is the old one with the form's keys laid over it, whether or not the
      save goes on to succeed. */
  lemma GuardarUIValidaciones(c: Json, form: FormularioConfig)
    requires ProcesamientoObjeto(c) && Disponible(c, Horarios)
    ensures Valor(GuardarUI(c, form).0, Validaciones) == Some(Combinar(ValorONull(c, Validaciones), form.validaciones))
  {
    var c4 := PasoHorarios(c, form);
    PasoHorariosNoTocaValidaciones(c, form);
    var v := Combinar(ValorONull(c4, Validaciones), form.validaciones);
    var c5 := Fijar(c4, Validaciones, v);
    ValorTrasFijar(c4, Validaciones, v);
    if Disponible(c5, ["archivos"]) {
      var c6 := PasoExportacion(c5, form);
      FijarNoToca(c5, Exportacion, Combinar(ValorONull(c5, Exportacion), form.exportacion), Validaciones);
      FijarNoToca(c6, ["ui"], Combinar(ValorONull(c6, ["ui"]), form.ui), Validaciones);
    }
  }

  /** After a successful save where `archivos` is an object,
      `archivos.exportacion` is the old one with the form's keys laid over
      it. */
  lemma GuardarUIExportacion(c: Json, form: FormularioConfig)
    requires c.Obj? && GuardarUI(c, form).1
    requires Valor(c, ["archivos"]).Some? && Valor(c, ["archivos"]).value.Obj?
    ensures Valor(GuardarUI(c, form).0, Exportacion) == Some(Combinar(ValorONull(c, Exportacion), form.exportacion))
  {
    var c5 := PasoValidaciones(PasoHorarios(c, form), form);
    PasosProcesamientoNoTocan(c, form, ["archivos"]);
    PasosProcesamientoNoTocan(c, form, Exportacion);
    var v := Combinar(ValorONull(c5, Exportacion), form.exportacion);
    var c6 := Fijar(c5, Exportacion, v);
    ValorTrasFijar(c5, Exportacion, v);
    FijarNoToca(c6, ["ui"], Combinar(ValorONull(c6, ["ui"]), form.ui), Exportacion);
  }

  /** The save writes only under `procesamiento`, `archivos` and `ui`: every
      other path keeps its value, whether the save succeeds or stops half
      way. */
  lemma GuardarUIMarco(c: Json, form: FormularioConfig, otro: seq<string>)
    requires c.Obj? && |otro| >= 1
    requires otro[0] != "procesamiento" && otro[0] != "archivos" && otro[0] != "ui"
    ensures Valor(GuardarUI(c, form).0, otro) == Valor(c, otro)
  {
    if Disponible(c, Horarios) {
      var c5 := PasoValidaciones(PasoHorarios(c, form), form);
      PasosProcesamientoNoTocan(c, form, otro);
      if Disponible(c5, ["archivos"]) {
        var c6 := PasoExportacion(c5, form);
        FijarNoToca(c5, Exportacion, Combinar(ValorONull(c5, Exportacion), form.exportacion), otro);
        FijarNoToca(c6, ["ui"], Combinar(ValorONull(c6, ["ui"]), form.ui), otro);
      }
    }
  }

  /** `procesamiento.horarios` is an object too. */
  predicate HorariosObjeto(c: Json) {
    ProcesamientoObjeto(c)
    && "horarios" in c.fields["procesamiento"].fields
    && c.fields["procesamiento"].fields["horarios"].Obj?
  }

  /** One write to a field of `procesamiento.horarios` sets that field and
      leaves another one alone. */
  lemma HorarioPaso(c: Json, k: string, x: Json, otra: string)
    requires HorariosObjeto(c) && otra != k
    ensures HorariosObjeto(Fijar(c, Horarios + [k], x))
    ensures Valor(Fijar(c, Horarios + [k], x), Horarios + [k]) == Some(x)
    ensures Valor(Fijar(c, Horarios + [k], x), Horarios + [otra]) == Valor(c, Horarios + [otra])
  {
    ValorTrasFijar(c, Horarios + [k], x);
    FijarNoToca(c, Horarios + [k], x, Horarios + [otra]);
  }

  /** The steps after the hour fields leave `procesamiento.horarios` alone. */
  lemma TrasHorariosNoToca(c: Json, form: FormularioConfig, k: string)
    requires HorariosObjeto(c)
    ensures Valor(TrasHorarios(c, form).0, Horarios + [k]) == Valor(c, Horarios + [k])
  {
    var c5 := PasoValidaciones(c, form);
    FijarNoToca(c, Validaciones, Combinar(ValorONull(c, Validaciones), form.validaciones), Horarios + [k]);
    if Disponible(c5, ["archivos"]) {
      var c6 := PasoExportacion(c5, form);
      FijarNoToca(c5, Exportacion, Combinar(ValorONull(c5, Exportacion), form.exportacion), Horarios + [k]);
      FijarNoToca(c6, ["ui"], Combinar(ValorONull(c6, ["ui"]), form.ui), Horarios + [k]);
    }
  }

  /** When `procesamiento.horarios` is an object, the save leaves the form's
      entry and exit hours there, and the tolerances as `parseInt` reads
      them. */
  lemma GuardarUIHorarios(c: Json, form: FormularioConfig)
    requires HorariosObjeto(c)
    ensures var r := GuardarUI(c, form).0;
      && Valor(r, Horarios + ["horaEntradaEstandar"]) == Some(Str(form.horaEntrada))
      && Valor(r, Horarios + ["horaSalidaEstandar"]) == Some(Str(form.horaSalida))
      && Valor(r, Horarios + ["toleranciaEntrada"]) == Some(Entero(form.toleranciaEntrada))
      && Valor(r, Horarios + ["toleranciaSalida"]) == Some(Entero(form.toleranciaSalida))
  {
    assert Disponible(c, Horarios);
    var e, s, te, ts := "horaEntradaEstandar", "horaSalidaEstandar", "toleranciaEntrada", "toleranciaSalida";
    var c1 := Fijar(c, Horarios + [e], Str(form.horaEntrada));
    var c2 := Fijar(c1, Horarios + [s], Str(form.horaSalida));
    var c3 := Fijar(c2, Horarios + [te], Entero(form.toleranciaEntrada));
    var c4 := Fijar(c3, Horarios + [ts], Entero(form.toleranciaSalida));
    HorarioPaso(c, e, Str(form.horaEntrada), s);
    HorarioPaso(c1, s, Str(form.horaSalida), e);
    HorarioPaso(c2, te, Entero(form.toleranciaEntrada), e);
    HorarioPaso(c2, te, Entero(form.toleranciaEntrada), s);
    HorarioPaso(c3, ts, Entero(form.toleranciaSalida), e);
    HorarioPaso(c3, ts, Entero(form.toleranciaSalida), s);
    HorarioPaso(c3, ts, Entero(form.toleranciaSalida), te);
    TrasHorariosNoToca(c4, form, e);
    TrasHorariosNoToca(c4, form, s);
    TrasHorariosNoToca(c4, form, te);
    TrasHorariosNoToca(c4, form, ts);
  }

  // ---------------------------------------------------------------------
  // The configuration object
  // ---------------------------------------------------------------------

  class ConfiguracionSistema {
    var config: Json

    /** The configuration is always an object. */
    ghost predicate Valid()
      reads this
    {
      config.Obj?
    }

    /** The constructor with `cargarConfiguracionGuardada`: the defaults,
        with the saved configuration, when there is one, merged over them. */
    constructor (defecto: map<string, Json>, guardada: Option<Json>)
      ensures Valid()
      ensures guardada.None? ==> config == Obj(defecto)
      ensures guardada.Some? ==> config == Obj(Merge(Obj(defecto), Campos(guardada.value)))
    {
      var inicial := Obj(defecto);
      if guardada.Some? {
        inicial := Obj(Merge(inicial, Campos(guardada.value)));
      }
      config := inicial;
    }

    /** `importar`, once the file is parsed: the imported configuration is
        merged over the current one. */
    method Importar(importada: Json)
      modifies this`config
      ensures config == Obj(Merge(old(config), Campos(importada)))
      ensures Valid()
    {
      config := Obj(Merge(config, Campos(importada)));
    }

    /** `obtener(key)`. */
    method Obtener(key: string) returns (r: Option<Json>)
      ensures r == Valor(config, Split(key, '.'))
    {
      r := ObtenerEn(config, Split(key, '.'));
    }

    /** `establecer(key, valor)`. */
    method Establecer(key: string, valor: Json)
      modifies this`config
      ensures config == Fijar(old(config), Split(key, '.'), valor)
      ensures old(Valid()) ==> Valid()
    {
      config := FijarEn(config, Split(key, '.'), valor);
    }

    /** `guardarDesdeUI(formData)`; `exito` is the `success` it reports. */
    method GuardarDesdeUI(form: FormularioConfig) returns (exito: bool)
      requires Valid()
      modifies this`config
      ensures (config, exito) == GuardarUI(old(config), form)
      ensures Valid()
    {
      var horarios := ObtenerEn(config, Horarios);
      if horarios.None? || !EsContenedor(horarios.value) {
        return false;
      }
      config := FijarEn(config, Horarios + ["horaEntradaEstandar"], Str(form.horaEntrada));
      config := FijarEn(config, Horarios + ["horaSalidaEstandar"], Str(form.horaSalida));
      config := FijarEn(config, Horarios + ["toleranciaEntrada"], Entero(form.toleranciaEntrada));
      config := FijarEn(config, Horarios + ["toleranciaSalida"], Entero(form.toleranciaSalida));
      var validaciones := ObtenerEn(config, Validaciones);
      config := FijarEn(config, Validaciones, Combinar(if validaciones.Some? then validaciones.value else Null, form.validaciones));
      var archivos := ObtenerEn(config, ["archivos"]);
      if archivos.None? || !EsContenedor(archivos.value) {
        return false;
      }
      var exportacion := ObtenerEn(config, Exportacion);
      config := FijarEn(config, Exportacion, Combinar(if exportacion.Some? then exportacion.value else Null, form.exportacion));
      var ui := ObtenerEn(config, ["ui"]);
      config := FijarEn(config, ["ui"], Combinar(if ui.Some? then ui.value else Null, form.ui));
      exito := true;
    }
  }
}
