/** The roster administration page (`admin.js`): its own copy of the employee
    list and of the currently filtered list, the page of the filtered list
    on show, and the operations that validate, add, edit, (de)activate and
    delete employees, filter and page the list, and propose fresh employee
    codes, employee ids and project ids. */
module Admin {
  import opened Wrappers
  import opened Text
  import opened Roster

  // ---------------------------------------------------------------------
  // validarEmail
  // ---------------------------------------------------------------------

  /** `[^\s@]`: a character allowed inside each part of an address. */
  predicate CaracterEmail(c: char) {
    !IsJsSpace(c) && c != '@'
  }

  /** `[^\s@]+`. */
  predicate ParteEmail(s: string) {
    |s| > 0 && forall i :: 0 <= i < |s| ==> CaracterEmail(s[i])
  }

  /** The shape `/^[^\s@]+@[^\s@]+\.[^\s@]+$/` describes: three non-empty
      parts free of white space and `@`, joined by `@` and `.`. */
  ghost predicate FormaEmail(email: string) {
    exists a, b, c :: ParteEmail(a) && ParteEmail(b) && ParteEmail(c) && email == a + "@" + b + "." + c
  }

  /** `validarEmail(email)`, as a scan: no white space anywhere, a first `@`
      after at least one character and no second `@`, and a `.` in the part
      after the `@` that is neither its first nor its last character. */
  predicate ValidarEmail(email: string) {
    && (forall i :: 0 <= i < |email| ==> !IsJsSpace(email[i]))
    && match IndexOf(email, "@")
       case None => false
       case Some(i) =>
         && 0 < i && i + 4 <= |email|
         && (forall j :: i < j < |email| ==> email[j] != '@')
         && (exists k :: i + 1 < k < |email| - 1 && email[k] == '.')
  }

  /** The scan accepts exactly the addresses of the regular expression's shape. */
  lemma ValidarEmailCorrecto(email: string)
    ensures ValidarEmail(email) <==> FormaEmail(email)
  {
    if ValidarEmail(email) {
      ValidarEmailForma(email);
    }
    if FormaEmail(email) {
      var a, b, c :| ParteEmail(a) && ParteEmail(b) && ParteEmail(c) && email == a + "@" + b + "." + c;
      FormaValidarEmail(email, a, b, c);
    }
  }

  lemma ValidarEmailForma(email: string)
    requires ValidarEmail(email)
    ensures FormaEmail(email)
  {
    var i := IndexOf(email, "@").value;
    var k :| i + 1 < k < |email| - 1 && email[k] == '.';
    var a, b, c := email[..i], email[i + 1..k], email[k + 1..];
    forall j | 0 <= j < i
      ensures email[j] != '@'
    {
      if email[j] == '@' {
        assert OccursAt(email, "@", j);
      }
    }
    assert OccursAt(email, "@", i);
    assert ParteEmail(a);
    assert ParteEmail(b);
    assert ParteEmail(c);
    assert email == a + "@" + b + "." + c;
  }

  lemma FormaValidarEmail(email: string, a: string, b: string, c: string)
    requires ParteEmail(a) && ParteEmail(b) && ParteEmail(c)
    requires email == a + "@" + b + "." + c
    ensures ValidarEmail(email)
  {
    var i := |a|;
    var k := |a| + 1 + |b|;
    assert email[i] == '@' && email[k] == '.';
    forall j | 0 <= j < |email|
      ensures !IsJsSpace(email[j]) && (j != i ==> email[j] != '@')
    {
      if j < i {
        assert email[j] == a[j];
      } else if i < j < k {
        assert email[j] == b[j - i - 1];
      } else if k < j {
        assert email[j] == c[j - k - 1];
      }
    }
    assert OccursAt(email, "@", i);
    var r := IndexOf(email, "@");
    assert r.Some?;
    assert email[r.value..r.value + 1] == "@";
    assert email[r.value] == '@';
    assert r.value == i;
  }

  // ---------------------------------------------------------------------
  // validarFuncionario
  // ---------------------------------------------------------------------

  /** The messages `validarFuncionario` collects, in its order: one per
      missing required field, then one for a present but malformed e-mail. */
  function Errores(f: Employee): seq<string> {
    (if f.codigo == "" then ["El código es requerido"] else [])
    + (if f.proyecto == "" then ["El proyecto es requerido"] else [])
    + (if f.nombreCompleto == "" then ["El nombre completo es requerido"] else [])
    + (if f.nombre == "" then ["El nombre es requerido"] else [])
    + (if f.apellido == "" then ["El apellido es requerido"] else [])
    + (if f.cargo == "" then ["El cargo es requerido"] else [])
    + (if f.email.Some? && f.email.value != "" && !ValidarEmail(f.email.value) then ["El email no es válido"] else [])
  }

  /** `validarFuncionario(f)`: every required field is filled in, and an
      e-mail, when one is given, passes `validarEmail`. */
  predicate ValidarFuncionario(f: Employee) {
    && f.codigo != "" && f.proyecto != "" && f.nombreCompleto != ""
    && f.nombre != "" && f.apellido != "" && f.cargo != ""
    && (f.email.Some? && f.email.value != "" ==> ValidarEmail(f.email.value))
  }

  /** A record passes exactly when no message is collected, that is when no
      required field is empty and any e-mail given has the address shape. */
  lemma ValidarFuncionarioExacto(f: Employee)
    ensures ValidarFuncionario(f) <==> Errores(f) == []
    ensures ValidarFuncionario(f) <==>
      && f.codigo != "" && f.proyecto != "" && f.nombreCompleto != ""
      && f.nombre != "" && f.apellido != "" && f.cargo != ""
      && (f.email.Some? && f.email.value != "" ==> FormaEmail(f.email.value))
  {
    if f.email.Some? {
      ValidarEmailCorrecto(f.email.value);
    }
  }

  // ---------------------------------------------------------------------
  // The employee form
  // ---------------------------------------------------------------------

  /** The raw values of the employee form's inputs. */
  datatype Formulario = Formulario(
    codigo: string,
    proyecto: string,
    nombreCompleto: string,
    nombre: string,
    apellido: string,
    cargo: string,
    email: string,
    telefono: string,
    activo: bool)

  /** `input.value.trim() || null`. */
  function Opcional(s: string): (r: Option<string>)
    ensures r.None? <==> Trim(s) == ""
    ensures r.Some? ==> r.value == Trim(s)
  {
    if Trim(s) == "" then None else Some(Trim(s))
  }

  /** The record `guardarFuncionario` builds: trimmed text fields, the
      project as selected, today as both registration and update date. */
  function NuevoRegistro(id: int, form: Formulario, hoy: string): Employee {
    Employee(id, Trim(form.codigo), form.proyecto, Trim(form.nombreCompleto), Trim(form.nombre),
             Trim(form.apellido), Trim(form.cargo), Opcional(form.email), Opcional(form.telefono),
             form.activo, hoy, hoy)
  }

  /** The record `actualizarFuncionario` builds: `{...f, <form fields>}`,
      keeping the id and the registration date. */
  function Editado(f: Employee, form: Formulario, hoy: string): Employee {
    f.(codigo := Trim(form.codigo), proyecto := form.proyecto, nombreCompleto := Trim(form.nombreCompleto),
       nombre := Trim(form.nombre), apellido := Trim(form.apellido), cargo := Trim(form.cargo),
       email := Opcional(form.email), telefono := Opcional(form.telefono), activo := form.activo,
       fechaActualizacion := hoy)
  }

  // ---------------------------------------------------------------------
  // In-place updates of a list, as values
  // ---------------------------------------------------------------------

  /** `i = list.findIndex(f => f.id === id); if (i !== -1) list[i] = g`. */
  function Reemplazar(list: seq<Employee>, id: int, g: Employee): seq<Employee> {
    match IndexOfId(list, id)
    case None => list
    case Some(i) => list[i := g]
  }

  /** Replacing touches only the first entry with the id: the length and
      every other entry stay as they were. */
  lemma ReemplazarSoloPrimero(list: seq<Employee>, id: int, g: Employee)
    ensures |Reemplazar(list, id, g)| == |list|
    ensures IndexOfId(list, id).None? ==> Reemplazar(list, id, g) == list
    ensures IndexOfId(list, id).Some? ==>
      var i := IndexOfId(list, id).value;
      && Reemplazar(list, id, g)[i] == g
      && (forall j :: 0 <= j < |list| && j != i ==> Reemplazar(list, id, g)[j] == list[j])
      && (forall j :: 0 <= j < i ==> list[j].id != id)
  {
  }

  /** The record with the active flag and the update date changed. */
  function ConEstado(f: Employee, activo: bool, hoy: string): Employee {
    f.(activo := activo, fechaActualizacion := hoy)
  }

  /** What `activarFuncionario`/`desactivarFuncionario` leave in `funcionarios`. */
  function CambiarEstadoEn(list: seq<Employee>, id: int, activo: bool, hoy: string): seq<Employee> {
    match IndexOfId(list, id)
    case None => list
    case Some(i) => Reemplazar(list, id, ConEstado(list[i], activo, hoy))
  }

  /** Only `activo` and `fechaActualizacion` of the first employee with the
      id change; every other entry, and every other field of that one, stays. */
  lemma CambiarEstadoSoloEstado(list: seq<Employee>, id: int, activo: bool, hoy: string)
    ensures var r := CambiarEstadoEn(list, id, activo, hoy);
      && |r| == |list|
      && (forall j :: 0 <= j < |list| && list[j].id != id ==> r[j] == list[j])
      && (forall j :: 0 <= j < |list| && r[j] != list[j] ==> Some(j) == IndexOfId(list, id))
      && (forall j :: 0 <= j < |list| ==>
            r[j].(activo := list[j].activo, fechaActualizacion := list[j].fechaActualizacion) == list[j])
      && (IndexOfId(list, id).Some? ==>
            r[IndexOfId(list, id).value].activo == activo
            && r[IndexOfId(list, id).value].fechaActualizacion == hoy)
  {
    match IndexOfId(list, id)
    case None =>
    case Some(i) => ReemplazarSoloPrimero(list, id, ConEstado(list[i], activo, hoy));
  }

  /** `list.splice(list.findIndex(f => f.id === id), 1)` when the id is found. */
  function SinPrimero(list: seq<Employee>, id: int): seq<Employee> {
    match IndexOfId(list, id)
    case None => list
    case Some(i) => list[..i] + list[i + 1..]
  }

  /** Deleting removes the first entry with the id and keeps every other
      entry, in order; an unknown id changes nothing. */
  lemma SinPrimeroCorrecto(list: seq<Employee>, id: int)
    ensures IndexOfId(list, id).None? ==> SinPrimero(list, id) == list
    ensures IndexOfId(list, id).Some? ==>
      var i := IndexOfId(list, id).value;
      && |SinPrimero(list, id)| == |list| - 1
      && (forall j :: 0 <= j < i ==> SinPrimero(list, id)[j] == list[j])
      && (forall j :: i < j < |list| ==> SinPrimero(list, id)[j - 1] == list[j])
      && multiset(SinPrimero(list, id)) + multiset{list[i]} == multiset(list)
  {
    match IndexOfId(list, id)
    case None =>
    case Some(i) =>
      assert list == list[..i] + [list[i]] + list[i + 1..];
  }

  // ---------------------------------------------------------------------
  // Code uniqueness
  // ---------------------------------------------------------------------

  /** Appending a record whose code nobody has keeps codes unique. */
  lemma AgregarPreservaUnicos(list: seq<Employee>, nuevo: Employee)
    requires CodigosUnicos(list)
    requires !TieneCodigo(list, nuevo.codigo)
    ensures CodigosUnicos(list + [nuevo])
  {
    var r := list + [nuevo];
    forall i, j | 0 <= i < j < |r| && r[i].codigo != ""
      ensures r[i].codigo != r[j].codigo
    {
      if j == |list| {
        assert r[i] == list[i];
      } else {
        assert r[i] == list[i] && r[j] == list[j];
      }
    }
  }

  /** Changing the active flag never touches a code, so codes stay unique. */
  lemma CambiarEstadoPreservaUnicos(list: seq<Employee>, id: int, activo: bool, hoy: string)
    requires CodigosUnicos(list)
    ensures CodigosUnicos(CambiarEstadoEn(list, id, activo, hoy))
  {
    var r := CambiarEstadoEn(list, id, activo, hoy);
    CambiarEstadoSoloEstado(list, id, activo, hoy);
    forall j | 0 <= j < |list|
      ensures r[j].codigo == list[j].codigo
    {
      assert r[j].(activo := list[j].activo, fechaActualizacion := list[j].fechaActualizacion) == list[j];
    }
  }

  /** Deleting an entry keeps codes unique. */
  lemma SinPrimeroPreservaUnicos(list: seq<Employee>, id: int)
    requires CodigosUnicos(list)
    ensures CodigosUnicos(SinPrimero(list, id))
  {
    match IndexOfId(list, id)
    case None =>
    case Some(k) =>
      var r := SinPrimero(list, id);
      forall i, j | 0 <= i < j < |r| && r[i].codigo != ""
        ensures r[i].codigo != r[j].codigo
      {
        var i' := if i < k then i else i + 1;
        var j' := if j < k then j else j + 1;
        assert r[i] == list[i'] && r[j] == list[j'];
      }
  }

  /** `actualizarFuncionario` does not re-check codes: editing an employee
      to take another employee's code is accepted and leaves two employees
      with the same code. */
  lemma EdicionPuedeDuplicarCodigo()
    ensures var a := Employee(1, "A", "P", "X Y", "X", "Y", "C", None, None, true, "d", "d");
      var b := Employee(2, "B", "P", "Z W", "Z", "W", "C", None, None, true, "d", "d");
      var form := Formulario("A", "P", "Z W", "Z", "W", "C", "", "", true);
      && CodigosUnicos([a, b])
      && ValidarFuncionario(Editado(b, form, "e"))
      && !CodigosUnicos(Reemplazar([a, b], 2, Editado(b, form, "e")))
  {
    var a := Employee(1, "A", "P", "X Y", "X", "Y", "C", None, None, true, "d", "d");
    var b := Employee(2, "B", "P", "Z W", "Z", "W", "C", None, None, true, "d", "d");
    var form := Formulario("A", "P", "Z W", "Z", "W", "C", "", "", true);
    var g := Editado(b, form, "e");
    assert Trim("A") == "A" && Trim("Z W") == "Z W" && Trim("Z") == "Z" && Trim("W") == "W" && Trim("C") == "C";
    assert Trim("") == "";
    assert IndexOfId([a, b], 2) == Some(1);
    var r := Reemplazar([a, b], 2, g);
    assert r[0].codigo == "A" && r[1].codigo == "A";
  }

  // ---------------------------------------------------------------------
  // filtrarFuncionarios
  // ---------------------------------------------------------------------

  /** The three filter controls: the lower-cased search text, the selected
      project (empty for all) and the selected state (`"activo"`,
      `"inactivo"`, anything else for all). */
  datatype Filtro = Filtro(busqueda: string, proyecto: string, estado: string)

  /** `matchesSearch`: no search text, or it occurs in the lower-cased full
      name, code, position or e-mail. */
  predicate CoincideBusqueda(f: Employee, termino: string) {
    || termino == ""
    || Contains(Lower(f.nombreCompleto), termino)
    || Contains(Lower(f.codigo), termino)
    || Contains(Lower(f.cargo), termino)
    || (f.email.Some? && Contains(Lower(f.email.value), termino))
  }

  predicate CoincideEstado(f: Employee, estado: string) {
    if estado == "activo" then f.activo
    else if estado == "inactivo" then !f.activo
    else true
  }

  /** The callback of `funcionarios.filter` in `filtrarFuncionarios`. */
  predicate Pasa(f: Employee, filtro: Filtro) {
    && CoincideBusqueda(f, filtro.busqueda)
    && (filtro.proyecto == "" || f.proyecto == filtro.proyecto)
    && CoincideEstado(f, filtro.estado)
  }

  /** `list.filter(f => Pasa(f, filtro))`: exactly the passing entries. */
  function Filtrar(list: seq<Employee>, filtro: Filtro): (r: seq<Employee>)
    ensures |r| <= |list|
    ensures forall f :: f in r <==> f in list && Pasa(f, filtro)
    decreases |list|
  {
    if |list| == 0 then []
    else (if Pasa(list[0], filtro) then [list[0]] else []) + Filtrar(list[1..], filtro)
  }

  /** Filtering keeps the order: it distributes over concatenation. */
  lemma {:induction false} FiltrarConcat(a: seq<Employee>, b: seq<Employee>, filtro: Filtro)
    ensures Filtrar(a + b, filtro) == Filtrar(a, filtro) + Filtrar(b, filtro)
    decreases |a|
  {
    if |a| == 0 {
      assert a + b == b;
    } else {
      assert (a + b)[0] == a[0];
      assert (a + b)[1..] == a[1..] + b;
      FiltrarConcat(a[1..], b, filtro);
    }
  }

  /** With every control cleared, the filtered list is the whole list. */
  lemma {:induction false} FiltrarSinFiltro(list: seq<Employee>)
    ensures Filtrar(list, Filtro("", "", "")) == list
    decreases |list|
  {
    if |list| > 0 {
      FiltrarSinFiltro(list[1..]);
      assert list == [list[0]] + list[1..];
    }
  }

  /** The "activo" and "inactivo" selections split the unfiltered-by-state
      list in two. */
  lemma {:induction false} FiltrarEstadosParten(list: seq<Employee>, termino: string, proyecto: string)
    ensures |Filtrar(list, Filtro(termino, proyecto, "activo"))| + |Filtrar(list, Filtro(termino, proyecto, "inactivo"))|
      == |Filtrar(list, Filtro(termino, proyecto, ""))|
    decreases |list|
  {
    if |list| > 0 {
      FiltrarEstadosParten(list[1..], termino, proyecto);
    }
  }

  // ---------------------------------------------------------------------
  // Paging
  // ---------------------------------------------------------------------

  const ItemsPorPagina: nat := 20

  /** `Math.ceil(n / itemsPorPagina)`: the fewest pages that hold `n` items. */
  function TotalPaginas(n: nat): (r: nat)
    ensures r * ItemsPorPagina >= n
    ensures r == 0 || (r - 1) * ItemsPorPagina < n
  {
    (n + ItemsPorPagina - 1) / ItemsPorPagina
  }

  function Min(a: int, b: int): int {
    if a <= b then a else b
  }

  /** `list.slice((pagina - 1) * itemsPorPagina, pagina * itemsPorPagina)`
      (a slice past the end is empty). */
  function PaginaItems(list: seq<Employee>, pagina: nat): (r: seq<Employee>)
    requires pagina >= 1
    ensures |r| <= ItemsPorPagina
  {
    var inicio := (pagina - 1) * ItemsPorPagina;
    list[Min(inicio, |list|)..Min(inicio + ItemsPorPagina, |list|)]
  }

  /** Entry `i` is shown on page `i / 20 + 1`, at row `i % 20`, and that
      page is within the page count. */
  lemma PaginaContiene(list: seq<Employee>, i: nat)
    requires i < |list|
    ensures 1 <= i / ItemsPorPagina + 1 <= TotalPaginas(|list|)
    ensures i % ItemsPorPagina < |PaginaItems(list, i / ItemsPorPagina + 1)|
    ensures PaginaItems(list, i / ItemsPorPagina + 1)[i % ItemsPorPagina] == list[i]
  {
    var p := i / ItemsPorPagina;
    assert i == p * ItemsPorPagina + i % ItemsPorPagina;
  }

  /** A page is empty exactly when it lies beyond the page count. */
  lemma PaginaVacia(list: seq<Employee>, pagina: nat)
    requires pagina >= 1
    ensures PaginaItems(list, pagina) == [] <==> pagina > TotalPaginas(|list|)
  {
    var t := TotalPaginas(|list|);
    if pagina > t {
      assert (pagina - 1) * ItemsPorPagina >= t * ItemsPorPagina;
    } else {
      assert (pagina - 1) * ItemsPorPagina <= (t - 1) * ItemsPorPagina;
    }
  }

  /** `cambiarPaginaFunc(direccion)`: back one page unless on the first,
      forward one page unless on the last, otherwise stay. */
  function PaginaSiguiente(pagina: int, direccion: int, n: nat): int {
    if direccion == -1 && pagina > 1 then pagina - 1
    else if direccion == 1 && pagina < TotalPaginas(n) then pagina + 1
    else pagina
  }

  /** The page moves by at most one, never goes below 1, moves forward only
      while within the page count, and stays for any other direction. */
  lemma PaginaSiguienteAcotada(pagina: int, direccion: int, n: nat)
    ensures var r := PaginaSiguiente(pagina, direccion, n);
      && pagina - 1 <= r <= pagina + 1
      && (pagina >= 1 ==> r >= 1)
      && (r > pagina ==> r <= TotalPaginas(n))
      && (direccion != 1 && direccion != -1 ==> r == pagina)
  {
  }

  // ---------------------------------------------------------------------
  // generarCodigoFuncionario
  // ---------------------------------------------------------------------

  /** No employee from index `desde` on has a code. */
  predicate SinCodigoDesde(list: seq<Employee>, desde: nat) {
    forall k :: desde <= k < |list| ==> list[k].codigo == ""
  }

  /** The code of the last employee that has one. */
  function UltimoCodigo(list: seq<Employee>): (r: Option<string>)
    ensures r.None? <==> forall j :: 0 <= j < |list| ==> list[j].codigo == ""
    ensures r.Some? ==> r.value != "" && exists j :: 0 <= j < |list| && list[j].codigo == r.value && SinCodigoDesde(list, j + 1)
    decreases |list|
  {
    if |list| == 0 then None
    else if list[|list| - 1].codigo != "" then Some(list[|list| - 1].codigo)
    else UltimoCodigo(list[..|list| - 1])
  }

  /** The number part of a new code: `numero.toString().padStart(3, '0')`. */
  function Numerado(n: nat): string {
    PadStart(NatToString(n), 3, '0')
  }

  /** The code that follows `ultimo`, with the trailing digits cut off the
      end: `<prefix><n + 1, at least 3 digits>`, or `<ultimo>-001` when it
      has no trailing digits. */
  function CodigoSiguiente(ultimo: string): string {
    var d := TrailingDigits(ultimo);
    TrailingDigitsSufijo(ultimo);
    if d == [] then ultimo + "-001"
    else ultimo[..|ultimo| - |d|] + Numerado(DigitsValue(d) + 1)
  }

  /** The same as the code writes it: `ultimoCodigo.replace(match[1], '')`
      removes the FIRST occurrence of the trailing digits, wherever it is. */
  function CodigoSiguienteComoEscrito(ultimo: string): string {
    var d := TrailingDigits(ultimo);
    TrailingDigitsSufijo(ultimo);
    if d == [] then ultimo + "-001"
    else ReplaceFirst(ultimo, d, "") + Numerado(DigitsValue(d) + 1)
  }

  /** `generarCodigoFuncionario()` corrected: the trailing digits are cut
      at the end of the last code, not where they first occur. */
  function GenerarCodigoCorregido(list: seq<Employee>): string {
    match UltimoCodigo(list)
    case None => "FIAS-001"
    case Some(u) => CodigoSiguiente(u)
  }

  /** A non-digit (or nothing) followed by digits: the digits are the
      trailing-digit run. */
  lemma {:induction false} TrailingDigitsTras(p: string, d: string)
    requires AllDigits(d)
    requires p == [] || !IsDigit(p[|p| - 1])
    ensures TrailingDigits(p + d) == d
    decreases |d|
  {
    if |d| == 0 {
      assert p + d == p;
    } else {
      var d0, c := d[..|d| - 1], d[|d| - 1];
      assert d == d0 + [c];
      assert (p + d)[..|p + d| - 1] == p + d0;
      TrailingDigitsTras(p, d0);
    }
  }

  /** The number part reads back as the number. */
  lemma NumeradoValor(n: nat)
    ensures AllDigits(Numerado(n)) && |Numerado(n)| >= 3
    ensures DigitsValue(Numerado(n)) == n
  {
    var s := NatToString(n);
    var r := Numerado(n);
    PadStartRelleno(s, 3, '0');
    var z := r[..|r| - |s|];
    assert r == z + s;
    DigitsValueLeadingZeros(z, s);
    NatToStringRoundTrip(n);
  }

  lemma DigitosUno()
    ensures AllDigits("001") && DigitsValue("001") == 1
  {
    assert "001"[..2] == "00" && "00"[..1] == "0" && "0"[..0] == "";
  }

  lemma NumeradoUno()
    ensures Numerado(1) == "001"
  {
    assert NatToString(1) == "1";
  }

  /** A code splits into the part before its trailing digits and those
      digits. */
  predicate Partido(p: string, d: string) {
    AllDigits(d) && (p == [] || !IsDigit(p[|p| - 1]))
  }

  lemma PartidoTrailing(p: string, d: string)
    requires Partido(p, d)
    ensures TrailingDigits(p + d) == d
  {
    TrailingDigitsTras(p, d);
  }

  /** Every code splits that way, at its trailing digits. */
  lemma PartidoExiste(ultimo: string)
    ensures var d := TrailingDigits(ultimo);
      |d| <= |ultimo| && Partido(ultimo[..|ultimo| - |d|], d) && ultimo == ultimo[..|ultimo| - |d|] + d
  {
    TrailingDigitsSufijo(ultimo);
  }

  /** A code without trailing digits gets `-001` appended. */
  lemma CodigoSinDigitos(p: string)
    requires Partido(p, [])
    ensures CodigoSiguiente(p) == (p + "-") + Numerado(1)
    ensures TrailingDigits(CodigoSiguiente(p)) == Numerado(1)
  {
    PartidoTrailing(p, []);
    assert p + [] == p;
    NumeradoUno();
    NumeradoValor(1);
    assert p + "-001" == (p + "-") + Numerado(1);
    TrailingDigitsTras(p + "-", Numerado(1));
  }

  /** A code with trailing digits keeps what precedes them. */
  lemma CodigoConDigitos(p: string, d: string)
    requires Partido(p, d) && d != []
    ensures CodigoSiguiente(p + d) == p + Numerado(DigitsValue(d) + 1)
    ensures TrailingDigits(CodigoSiguiente(p + d)) == Numerado(DigitsValue(d) + 1)
  {
    PartidoTrailing(p, d);
    var u := p + d;
    assert u[..|u| - |d|] == p;
    NumeradoValor(DigitsValue(d) + 1);
    TrailingDigitsTras(p, Numerado(DigitsValue(d) + 1));
  }

  /** The code after `<p><d>`, `d` its trailing digits, keeps the prefix `p`
      (or `<p>-` when there are no digits) and ends in the next number: one
      more than `d` reads (1 without digits), written with at least three
      digits, and those are exactly the new code's trailing digits. */
  lemma CodigoSiguienteIncrementa(p: string, d: string)
    requires Partido(p, d)
    ensures var n := if d == [] then 1 else DigitsValue(d) + 1;
      var prefijo := if d == [] then p + "-" else p;
      && CodigoSiguiente(p + d) == prefijo + Numerado(n)
      && TrailingDigits(CodigoSiguiente(p + d)) == Numerado(n)
      && |Numerado(n)| >= 3 && AllDigits(Numerado(n)) && DigitsValue(Numerado(n)) == n
  {
    if d == [] {
      assert p + d == p;
      CodigoSinDigitos(p);
      NumeradoValor(1);
    } else {
      CodigoConDigitos(p, d);
      NumeradoValor(DigitsValue(d) + 1);
    }
  }

  /** When the trailing digits occur nowhere earlier in the code, the code as
      written and the corrected code agree. */
  lemma ComoEscritoCoincide(p: string, d: string)
    requires Partido(p, d) && d != []
    requires IndexOf(p + d, d) == Some(|p|)
    ensures CodigoSiguienteComoEscrito(p + d) == CodigoSiguiente(p + d)
  {
    PartidoTrailing(p, d);
    var u := p + d;
    assert ReplaceFirst(u, d, "") == u[..|p|] + "" + u[|p| + |d|..];
    assert u[..|p|] + "" + u[|p| + |d|..] == p;
    assert u[..|u| - |d|] == p;
  }

  lemma NumeradoDos()
    ensures Numerado(2) == "002"
  {
    assert NatToString(2) == "2";
  }

  /** The corrected code after `"A001-001"` is `"A001-002"`. */
  lemma CodigoCorregidoEjemplo()
    ensures CodigoSiguiente("A001-001") == "A001-002"
  {
    var p, d := "A001-", "001";
    var u := p + d;
    assert u == "A001-001";
    assert Partido(p, d);
    DigitosUno();
    CodigoConDigitos(p, d);
    assert CodigoSiguiente(u) == p + Numerado(2);
    NumeradoDos();
    assert p + "002" == "A001-002";
  }

  /** As written, the code after `"A001-001"` is `"A-001002"`: the digits
      `001` are cut where they first occur, inside the prefix. */
  lemma CodigoComoEscritoFalla()
    ensures CodigoSiguienteComoEscrito("A001-001") == "A-001002"
  {
    var p, d := "A001-", "001";
    var u := p + d;
    assert u == "A001-001";
    assert Partido(p, d);
    PartidoTrailing(p, d);
    DigitosUno();
    NumeradoDos();
    assert u[1..4] == d;
    assert OccursAt(u, d, 1);
    assert u[0..3] != d;
    assert IndexOf(u, d) == Some(1);
    var x := ReplaceFirst(u, d, "");
    assert x == u[..1] + "" + u[4..];
    assert x == "A-001";
    assert CodigoSiguienteComoEscrito(u) == x + "002";
    assert x + "002" == "A-001002";
  }

  /** `generarCodigoFuncionario()` as written, with the first occurrence of
      the trailing digits removed. */
  function GenerarCodigoComoEscrito(list: seq<Employee>): string {
    match UltimoCodigo(list)
    case None => "FIAS-001"
    case Some(u) => CodigoSiguienteComoEscrito(u)
  }

  /** The code after `u`: `u` with its trailing number replaced by the next
      one (or with `-001` appended when it has none), and the new code's
      trailing digits read as that next number. */
  lemma CodigoSiguienteDe(u: string)
    ensures |TrailingDigits(u)| <= |u| && Partido(u[..|u| - |TrailingDigits(u)|], TrailingDigits(u))
    ensures TrailingDigits(u) == [] ==>
      && CodigoSiguiente(u) == (u + "-") + Numerado(1)
      && TrailingDigits(CodigoSiguiente(u)) == Numerado(1)
      && AllDigits(Numerado(1)) && DigitsValue(Numerado(1)) == 1
    ensures TrailingDigits(u) != [] ==>
      var d := TrailingDigits(u);
      && AllDigits(d)
      && CodigoSiguiente(u) == u[..|u| - |d|] + Numerado(DigitsValue(d) + 1)
      && TrailingDigits(CodigoSiguiente(u)) == Numerado(DigitsValue(d) + 1)
      && AllDigits(Numerado(DigitsValue(d) + 1)) && DigitsValue(Numerado(DigitsValue(d) + 1)) == DigitsValue(d) + 1
  {
    var d := TrailingDigits(u);
    PartidoExiste(u);
    var p := u[..|u| - |d|];
    assert u == p + d;
    if d == [] {
      assert p == u;
      CodigoSinDigitos(p);
      NumeradoValor(1);
    } else {
      CodigoConDigitos(p, d);
      NumeradoValor(DigitsValue(d) + 1);
    }
  }

  /** The proposed code is `FIAS-001` when nobody has a code; otherwise the
      code after the last one, as `CodigoSiguienteDe` describes it. */
  lemma GenerarCodigoCorrecto(list: seq<Employee>)
    ensures UltimoCodigo(list).None? ==> GenerarCodigoCorregido(list) == "FIAS-001"
    ensures UltimoCodigo(list).Some? ==>
      var u := UltimoCodigo(list).value;
      var d := TrailingDigits(u);
      && |d| <= |u| && Partido(u[..|u| - |d|], d)
      && var n := if d == [] then 1 else DigitsValue(d) + 1;
         && GenerarCodigoCorregido(list) == (if d == [] then u + "-" else u[..|u| - |d|]) + Numerado(n)
         && AllDigits(Numerado(n)) && TrailingDigits(GenerarCodigoCorregido(list)) == Numerado(n)
         && DigitsValue(Numerado(n)) == n
  {
    match UltimoCodigo(list)
    case None =>
    case Some(u) =>
      CodigoSiguienteDe(u);
  }

  /** As written and corrected agree on every list whose last code has its
      trailing digits nowhere earlier (in particular on `FIAS-001`,
      `FIAS-002`, ...). */
  lemma GenerarCodigoComoEscritoCoincide(list: seq<Employee>)
    requires UltimoCodigo(list).Some? ==>
      var u := UltimoCodigo(list).value;
      var d := TrailingDigits(u);
      d == [] || (|d| <= |u| && IndexOf(u, d) == Some(|u| - |d|))
    ensures GenerarCodigoComoEscrito(list) == GenerarCodigoCorregido(list)
  {
    if UltimoCodigo(list).Some? {
      var u := UltimoCodigo(list).value;
      var d := TrailingDigits(u);
      PartidoExiste(u);
      if d != [] {
        var p := u[..|u| - |d|];
        ComoEscritoCoincide(p, d);
      }
    }
  }

  // ---------------------------------------------------------------------
  // The proposed new employee id
  // ---------------------------------------------------------------------

  /** `Math.max(...list.map(f => parseInt(f.id) || 0), 0)`. */
  function MaxId(list: seq<Employee>): (m: int)
    ensures m >= 0
    ensures forall j :: 0 <= j < |list| ==> list[j].id <= m
    ensures m == 0 || exists j :: 0 <= j < |list| && list[j].id == m
    decreases |list|
  {
    if |list| == 0 then 0
    else
      var resto := MaxId(list[..|list| - 1]);
      var ultimo := list[|list| - 1].id;
      if ultimo > resto then ultimo else resto
  }

  /** The id proposed for a new employee. */
  function NuevoId(list: seq<Employee>): int {
    MaxId(list) + 1
  }

  /** The proposed id is positive, larger than every existing id (so nobody
      has it), and the smallest such: one past the largest id, or 1. */
  lemma NuevoIdLibre(list: seq<Employee>)
    ensures NuevoId(list) >= 1
    ensures forall j :: 0 <= j < |list| ==> list[j].id < NuevoId(list)
    ensures IndexOfId(list, NuevoId(list)).None?
    ensures NuevoId(list) == 1 || exists j :: 0 <= j < |list| && list[j].id == NuevoId(list) - 1
  {
  }

  // ---------------------------------------------------------------------
  // generarIdProyecto
  // ---------------------------------------------------------------------

  /** The `k`-th id `generarIdProyecto` tries: `PROY_NUEVO`, then
      `PROY_NUEVO_1`, `PROY_NUEVO_2`, ... */
  function Candidato(k: nat): string {
    if k == 0 then "PROY_NUEVO" else "PROY_NUEVO_" + NatToString(k)
  }

  /** Different attempts try different ids. */
  lemma CandidatoInyectivo(j: nat, k: nat)
    requires Candidato(j) == Candidato(k)
    ensures j == k
  {
    if j > 0 && k > 0 {
      assert NatToString(j) == Candidato(j)[11..];
      assert NatToString(k) == Candidato(k)[11..];
      NatToStringInjective(j, k);
    }
  }

  /** The first `n` candidates are all taken. */
  ghost predicate Ocupados(existentes: seq<string>, n: nat) {
    forall j :: 0 <= j < n ==> Candidato(j) in existentes
  }

  lemma OcupadosSiguiente(existentes: seq<string>, n: nat)
    requires Ocupados(existentes, n) && Candidato(n) in existentes
    ensures Ocupados(existentes, n + 1)
  {
  }

  /** The loop of `generarIdProyecto`: try candidates in order until one is
      not among `existentes`. */
  method PrimerCandidatoLibre(existentes: seq<string>) returns (nuevoId: string)
    ensures nuevoId !in existentes
    ensures exists k: nat :: nuevoId == Candidato(k) && Ocupados(existentes, k)
  {
    nuevoId := "PROY_NUEVO";
    var contador := 1;
    ghost var todos := set x | x in existentes;
    ghost var probados: set<string> := {};
    while nuevoId in existentes
      invariant contador >= 1
      invariant nuevoId == Candidato(contador - 1)
      invariant Ocupados(existentes, contador - 1)
      invariant probados <= todos
      invariant forall x :: x in probados ==> exists j :: 0 <= j < contador - 1 && x == Candidato(j)
      decreases |todos| - |probados|
    {
      if nuevoId in probados {
        var j :| 0 <= j < contador - 1 && nuevoId == Candidato(j);
        CandidatoInyectivo(j, contador - 1);
        assert false;
      }
      OcupadosSiguiente(existentes, contador - 1);
      probados := probados + {nuevoId};
      CardSubconjunto(probados, todos);
      nuevoId := "PROY_NUEVO_" + NatToString(contador);
      contador := contador + 1;
    }
  }

  /** A finite set's subsets are no larger than it. */
  lemma CardSubconjunto(a: set<string>, b: set<string>)
    requires a <= b
    ensures |a| <= |b|
    decreases |a|
  {
    if a != {} {
      var x :| x in a;
      CardSubconjunto(a - {x}, b - {x});
    }
  }

  function IdsProyectos(ps: seq<Project>): (ids: seq<string>)
    ensures |ids| == |ps| && forall i :: 0 <= i < |ps| ==> ids[i] == ps[i].id
  {
    seq(|ps|, i requires 0 <= i < |ps| => ps[i].id)
  }

  // ---------------------------------------------------------------------
  // The page state
  // ---------------------------------------------------------------------

  class Panel {
    var funcionarios: seq<Employee>
    /** The projects, loaded once by `cargarDatosAdministracion`. */
    const proyectos: seq<Project>
    var funcionariosFiltrados: seq<Employee>
    var paginaActual: int

    /** The page number never drops below 1. */
    ghost predicate Valid()
      reads this
    {
      paginaActual >= 1
    }

    /** The page once `cargarDatosAdministracion` has loaded the data: the
        filtered list is a copy of the whole list, on page 1. */
    constructor (funcs: seq<Employee>, projs: seq<Project>)
      ensures Valid()
      ensures funcionarios == funcs && funcionariosFiltrados == funcs && proyectos == projs
    {
      funcionarios := funcs;
      proyectos := projs;
      funcionariosFiltrados := funcs;
      paginaActual := 1;
    }

    /** `filtrarFuncionarios`: the filtered list becomes the entries of the
        whole list that pass the controls, and paging restarts at page 1. */
    method FiltrarFuncionarios(busqueda: string, proyecto: string, estado: string)
      modifies this`funcionariosFiltrados, this`paginaActual
      ensures funcionariosFiltrados == Filtrar(funcionarios, Filtro(Lower(busqueda), proyecto, estado))
      ensures paginaActual == 1 && Valid()
    {
      funcionariosFiltrados := Filtrar(funcionarios, Filtro(Lower(busqueda), proyecto, estado));
      paginaActual := 1;
    }

    /** `cambiarPaginaFunc(direccion)`. */
    method CambiarPagina(direccion: int)
      modifies this`paginaActual
      ensures paginaActual == PaginaSiguiente(old(paginaActual), direccion, |funcionariosFiltrados|)
      ensures old(Valid()) ==> Valid()
    {
      var totalPaginas := TotalPaginas(|funcionariosFiltrados|);
      if direccion == -1 && paginaActual > 1 {
        paginaActual := paginaActual - 1;
      } else if direccion == 1 && paginaActual < totalPaginas {
        paginaActual := paginaActual + 1;
      }
    }

    /** The rows `actualizarTablaFuncionarios` shows. */
    method ItemsPagina() returns (items: seq<Employee>)
      requires Valid()
      ensures items == PaginaItems(funcionariosFiltrados, paginaActual)
    {
      var inicio := (paginaActual - 1) * ItemsPorPagina;
      var fin := inicio + ItemsPorPagina;
      items := funcionariosFiltrados[Min(inicio, |funcionariosFiltrados|)..Min(fin, |funcionariosFiltrados|)];
    }

    /** `guardarFuncionario`: the form's record is appended to both lists
        unless it fails validation or its code is already taken, in which
        case nothing changes. */
    method GuardarFuncionario(id: int, form: Formulario, hoy: string) returns (guardado: bool)
      modifies this`funcionarios, this`funcionariosFiltrados
      ensures guardado <==>
        ValidarFuncionario(NuevoRegistro(id, form, hoy)) && !TieneCodigo(old(funcionarios), NuevoRegistro(id, form, hoy).codigo)
      ensures guardado ==>
        && funcionarios == old(funcionarios) + [NuevoRegistro(id, form, hoy)]
        && funcionariosFiltrados == old(funcionariosFiltrados) + [NuevoRegistro(id, form, hoy)]
      ensures !guardado ==> funcionarios == old(funcionarios) && funcionariosFiltrados == old(funcionariosFiltrados)
      ensures old(CodigosUnicos(funcionarios)) ==> CodigosUnicos(funcionarios)
    {
      var nuevo := NuevoRegistro(id, form, hoy);
      guardado := ValidarFuncionario(nuevo) && !TieneCodigo(funcionarios, nuevo.codigo);
      if guardado {
        if CodigosUnicos(funcionarios) {
          AgregarPreservaUnicos(funcionarios, nuevo);
        }
        funcionarios := funcionarios + [nuevo];
        funcionariosFiltrados := funcionariosFiltrados + [nuevo];
      }
    }

    /** `actualizarFuncionario(id)`: the first employee with the id, edited
        from the form, replaces that entry in both lists, unless the id is
        unknown or the edited record fails validation. */
    method ActualizarFuncionario(id: int, form: Formulario, hoy: string) returns (actualizado: bool)
      modifies this`funcionarios, this`funcionariosFiltrados
      ensures actualizado <==>
        IndexOfId(old(funcionarios), id).Some?
        && ValidarFuncionario(Editado(old(funcionarios)[IndexOfId(old(funcionarios), id).value], form, hoy))
      ensures actualizado ==>
        var g := Editado(old(funcionarios)[IndexOfId(old(funcionarios), id).value], form, hoy);
        && funcionarios == Reemplazar(old(funcionarios), id, g)
        && funcionariosFiltrados == Reemplazar(old(funcionariosFiltrados), id, g)
      ensures !actualizado ==> funcionarios == old(funcionarios) && funcionariosFiltrados == old(funcionariosFiltrados)
    {
      var index := IndexOfId(funcionarios, id);
      actualizado := index.Some? && ValidarFuncionario(Editado(funcionarios[index.value], form, hoy));
      if actualizado {
        var g := Editado(funcionarios[index.value], form, hoy);
        funcionarios := funcionarios[index.value := g];
        var indexFiltrado := IndexOfId(funcionariosFiltrados, id);
        if indexFiltrado.Some? {
          funcionariosFiltrados := funcionariosFiltrados[indexFiltrado.value := g];
        }
      }
    }

    /** The common body of `activarFuncionario` and `desactivarFuncionario`. */
    method FijarEstado(id: int, activo: bool, hoy: string)
      modifies this`funcionarios, this`funcionariosFiltrados
      ensures funcionarios == CambiarEstadoEn(old(funcionarios), id, activo, hoy)
      ensures IndexOfId(old(funcionarios), id).None? ==> funcionariosFiltrados == old(funcionariosFiltrados)
      ensures IndexOfId(old(funcionarios), id).Some? ==>
        funcionariosFiltrados == Reemplazar(old(funcionariosFiltrados), id,
          ConEstado(old(funcionarios)[IndexOfId(old(funcionarios), id).value], activo, hoy))
    {
      var index := IndexOfId(funcionarios, id);
      if index.Some? {
        var g := ConEstado(funcionarios[index.value], activo, hoy);
        funcionarios := funcionarios[index.value := g];
        var indexFiltrado := IndexOfId(funcionariosFiltrados, id);
        if indexFiltrado.Some? {
          funcionariosFiltrados := funcionariosFiltrados[indexFiltrado.value := g];
        }
      }
    }

    /** `activarFuncionario(id)` once confirmed. */
    method ActivarFuncionario(id: int, hoy: string)
      modifies this`funcionarios, this`funcionariosFiltrados
      ensures funcionarios == CambiarEstadoEn(old(funcionarios), id, true, hoy)
      ensures IndexOfId(old(funcionarios), id).None? ==> funcionariosFiltrados == old(funcionariosFiltrados)
      ensures IndexOfId(old(funcionarios), id).Some? ==>
        funcionariosFiltrados == Reemplazar(old(funcionariosFiltrados), id,
          ConEstado(old(funcionarios)[IndexOfId(old(funcionarios), id).value], true, hoy))
    {
      FijarEstado(id, true, hoy);
    }

    /** `desactivarFuncionario(id)` once confirmed. */
    method DesactivarFuncionario(id: int, hoy: string)
      modifies this`funcionarios, this`funcionariosFiltrados
      ensures funcionarios == CambiarEstadoEn(old(funcionarios), id, false, hoy)
      ensures IndexOfId(old(funcionarios), id).None? ==> funcionariosFiltrados == old(funcionariosFiltrados)
      ensures IndexOfId(old(funcionarios), id).Some? ==>
        funcionariosFiltrados == Reemplazar(old(funcionariosFiltrados), id,
          ConEstado(old(funcionarios)[IndexOfId(old(funcionarios), id).value], false, hoy))
    {
      FijarEstado(id, false, hoy);
    }

    /** `eliminarFuncionario(id)` once confirmed: the first entry with the id
        leaves `funcionarios`, and every entry with the id leaves the
        filtered list; an unknown id changes nothing. */
    method EliminarFuncionario(id: int)
      modifies this`funcionarios, this`funcionariosFiltrados
      ensures funcionarios == SinPrimero(old(funcionarios), id)
      ensures funcionariosFiltrados ==
        if IndexOfId(old(funcionarios), id).Some? then WithoutId(old(funcionariosFiltrados), id) else old(funcionariosFiltrados)
    {
      var index := IndexOfId(funcionarios, id);
      if index.Some? {
        funcionarios := funcionarios[..index.value] + funcionarios[index.value + 1..];
        funcionariosFiltrados := WithoutId(funcionariosFiltrados, id);
      }
    }

    /** What `nuevoFuncionario()` proposes for the form: an id nobody has,
        one past the largest, and the next employee code by the corrected
        generator, which is the code as written whenever the last code's
        trailing digits occur nowhere earlier in it. */
    method PropuestaNuevo() returns (id: int, codigo: string)
      ensures id >= 1 && IndexOfId(funcionarios, id).None?
      ensures forall j :: 0 <= j < |funcionarios| ==> funcionarios[j].id < id
      ensures id == 1 || exists j :: 0 <= j < |funcionarios| && funcionarios[j].id == id - 1
      ensures codigo == GenerarCodigoCorregido(funcionarios)
      ensures (UltimoCodigo(funcionarios).Some? ==>
                 var u := UltimoCodigo(funcionarios).value;
                 var d := TrailingDigits(u);
                 d == [] || (|d| <= |u| && IndexOf(u, d) == Some(|u| - |d|)))
              ==> codigo == GenerarCodigoComoEscrito(funcionarios)
    {
      id := NuevoId(funcionarios);
      NuevoIdLibre(funcionarios);
      codigo := GenerarCodigoCorregido(funcionarios);
      if UltimoCodigo(funcionarios).Some? ==>
           var u := UltimoCodigo(funcionarios).value;
           var d := TrailingDigits(u);
           d == [] || (|d| <= |u| && IndexOf(u, d) == Some(|u| - |d|))
      {
        GenerarCodigoComoEscritoCoincide(funcionarios);
      }
    }

    /** `generarIdProyecto()`: the first of `PROY_NUEVO`, `PROY_NUEVO_1`,
        `PROY_NUEVO_2`, ... that no project has. */
    method GenerarIdProyecto() returns (nuevoId: string)
      ensures nuevoId !in IdsProyectos(proyectos)
      ensures exists k: nat :: nuevoId == Candidato(k) && Ocupados(IdsProyectos(proyectos), k)
    {
      nuevoId := PrimerCandidatoLibre(IdsProyectos(proyectos));
    }
  }
}
