/** Identity resolution (script.js `buscarFuncionarioPorId` and
    `buscarFuncionarioPorNombre`): map a numeric id or a free-text name from an
    attendance row to an ACTIVE roster entry, first hit in roster order. */
module Identity {
  import opened Wrappers
  import opened Text
  import opened Roster

  /** The matching rules, one per search the code performs. Every rule also
      demands that the employee be active. */
  datatype Criterio =
    | PorId(clave: Option<int>)                        // f.id === parseInt(id)
    | Exacto(limpio: string)                           // lower-cased full name equals the input
    | PorParte(parte: string)                          // lower-cased full name includes one word
    | PorNombreOApellido(limpio: string, primera: string) // given/family name cross containment

  predicate Cumple(f: Employee, c: Criterio) {
    f.activo &&
    match c
    case PorId(clave) => clave == Some(f.id)
    case Exacto(limpio) => Lower(f.nombreCompleto) == limpio
    case PorParte(parte) => Contains(Lower(f.nombreCompleto), parte)
    case PorNombreOApellido(limpio, primera) =>
      Contains(limpio, Lower(f.nombre)) || Contains(limpio, Lower(f.apellido))
      || Contains(Lower(f.nombre), primera) || Contains(Lower(f.apellido), primera)
  }

  /** Index of the first employee at or after `from` that satisfies `c`. */
  function Primero(funcs: seq<Employee>, c: Criterio, from: nat): (r: Option<nat>)
    ensures r.Some? ==> from <= r.value < |funcs| && Cumple(funcs[r.value], c)
    ensures r.Some? ==> forall j :: from <= j < r.value ==> !Cumple(funcs[j], c)
    ensures r.None? ==> forall j :: from <= j < |funcs| ==> !Cumple(funcs[j], c)
    decreases |funcs| - from
  {
    if from >= |funcs| then None
    else if Cumple(funcs[from], c) then Some(from)
    else Primero(funcs, c, from + 1)
  }

  /** `funcionarios.find(f => <rule> && f.activo)`: the first active employee
      the rule accepts, or nothing when none does. */
  function Buscar(funcs: seq<Employee>, c: Criterio): (r: Option<Employee>)
    ensures r.Some? ==> r.value in funcs && r.value.activo && Cumple(r.value, c)
    ensures r.None? <==> forall j :: 0 <= j < |funcs| ==> !Cumple(funcs[j], c)
    ensures r.Some? ==> exists i :: 0 <= i < |funcs| && funcs[i] == r.value
                                    && forall j :: 0 <= j < i ==> !Cumple(funcs[j], c)
  {
    match Primero(funcs, c, 0)
    case Some(i) => Some(funcs[i])
    case None => None
  }

  /** `buscarFuncionarioPorId(id)`: an employee is returned only when it is
      active and its id equals `parseInt(id)`; `NaN` matches nobody. */
  function BuscarFuncionarioPorId(funcs: seq<Employee>, id: string): (r: Option<Employee>)
    ensures r.Some? ==> r.value in funcs && r.value.activo && ParseInt(id) == Some(r.value.id)
    ensures r.None? <==> forall j :: 0 <= j < |funcs| ==> !(funcs[j].activo && ParseInt(id) == Some(funcs[j].id))
    ensures ParseInt(id).None? ==> r.None?
  {
    Buscar(funcs, PorId(ParseInt(id)))
  }

  /** `nombre.toLowerCase().trim()`. */
  function NombreLimpio(nombre: string): string {
    Trim(Lower(nombre))
  }

  /** The word-by-word stage: the words of the input longer than two
      characters are tried in input order, and the first word that some active
      employee's lower-cased full name includes decides the result. */
  function EtapaPartes(funcs: seq<Employee>, partes: seq<string>): (r: Option<Employee>)
    ensures r.Some? ==> r.value in funcs && r.value.activo
    decreases |partes|
  {
    if |partes| == 0 then None
    else
      var hallado := if |partes[0]| > 2 then Buscar(funcs, PorParte(partes[0])) else None;
      if hallado.Some? then hallado else EtapaPartes(funcs, partes[1..])
  }

  /** The word stage finds nobody exactly when no word longer than two
      characters matches anyone. */
  lemma {:induction false} EtapaPartesNinguna(funcs: seq<Employee>, partes: seq<string>)
    ensures EtapaPartes(funcs, partes).None? <==>
      forall k :: 0 <= k < |partes| && |partes[k]| > 2 ==> Buscar(funcs, PorParte(partes[k])).None?
    decreases |partes|
  {
    if |partes| > 0 {
      var resto := partes[1..];
      EtapaPartesNinguna(funcs, resto);
      assert forall k :: 1 <= k < |partes| ==> partes[k] == resto[k - 1];
    }
  }

  /** Word `k` is longer than two characters, matches someone, and is the
      first such word. */
  ghost predicate PrimeraParte(funcs: seq<Employee>, partes: seq<string>, k: int) {
    && 0 <= k < |partes| && |partes[k]| > 2 && Buscar(funcs, PorParte(partes[k])).Some?
    && forall j :: 0 <= j < k && |partes[j]| > 2 ==> Buscar(funcs, PorParte(partes[j])).None?
  }

  /** When the word stage finds someone, it is the match of the first word
      longer than two characters that matches anyone. */
  lemma {:induction false} EtapaPartesPrimera(funcs: seq<Employee>, partes: seq<string>)
    requires EtapaPartes(funcs, partes).Some?
    ensures exists k :: PrimeraParte(funcs, partes, k) && EtapaPartes(funcs, partes) == Buscar(funcs, PorParte(partes[k]))
    decreases |partes|
  {
    var resto := partes[1..];
    if |partes[0]| > 2 && Buscar(funcs, PorParte(partes[0])).Some? {
      assert PrimeraParte(funcs, partes, 0);
    } else {
      EtapaPartesPrimera(funcs, resto);
      var k :| PrimeraParte(funcs, resto, k) && EtapaPartes(funcs, resto) == Buscar(funcs, PorParte(resto[k]));
      assert partes[k + 1] == resto[k];
      forall j | 0 <= j < k + 1 && |partes[j]| > 2
        ensures Buscar(funcs, PorParte(partes[j])).None?
      {
        if j > 0 {
          assert partes[j] == resto[j - 1];
        }
      }
      assert PrimeraParte(funcs, partes, k + 1);
    }
  }

  /** `buscarFuncionarioPorNombre(nombre)`: whatever it returns is an active
      roster entry. */
  function BuscarFuncionarioPorNombre(funcs: seq<Employee>, nombre: string): (r: Option<Employee>)
    ensures r.Some? ==> r.value in funcs && r.value.activo
  {
    if Trim(nombre) == "" then None
    else
      var limpio := NombreLimpio(nombre);
      var exacto := Buscar(funcs, Exacto(limpio));
      if exacto.Some? then exacto
      else
        var partes := Split(limpio, ' ');
        var porParte := EtapaPartes(funcs, partes);
        if porParte.Some? then porParte
        else Buscar(funcs, PorNombreOApellido(limpio, partes[0]))
  }

  /** The stages of the name lookup, in precedence order: empty or blank
      input finds nobody; otherwise an exact (case-folded, trimmed) full-name
      match wins over the word stage, and the word stage over the
      given/family-name fallback. */
  lemma BuscarPorNombreEtapas(funcs: seq<Employee>, nombre: string)
    ensures Trim(nombre) == "" ==> BuscarFuncionarioPorNombre(funcs, nombre).None?
    ensures Trim(nombre) != "" && Buscar(funcs, Exacto(NombreLimpio(nombre))).Some? ==>
      BuscarFuncionarioPorNombre(funcs, nombre) == Buscar(funcs, Exacto(NombreLimpio(nombre)))
    ensures (Trim(nombre) != "" && Buscar(funcs, Exacto(NombreLimpio(nombre))).None?
             && EtapaPartes(funcs, Split(NombreLimpio(nombre), ' ')).Some?) ==>
      BuscarFuncionarioPorNombre(funcs, nombre) == EtapaPartes(funcs, Split(NombreLimpio(nombre), ' '))
    ensures (Trim(nombre) != "" && Buscar(funcs, Exacto(NombreLimpio(nombre))).None?
             && EtapaPartes(funcs, Split(NombreLimpio(nombre), ' ')).None?) ==>
      BuscarFuncionarioPorNombre(funcs, nombre)
        == Buscar(funcs, PorNombreOApellido(NombreLimpio(nombre), Split(NombreLimpio(nombre), ' ')[0]))
  {
  }

  /** Nobody is ever found among a roster of inactive employees, whatever the
      name or id. */
  lemma InactivosNuncaCoinciden(funcs: seq<Employee>, nombre: string, id: string)
    requires forall j :: 0 <= j < |funcs| ==> !funcs[j].activo
    ensures BuscarFuncionarioPorNombre(funcs, nombre).None?
    ensures BuscarFuncionarioPorId(funcs, id).None?
  {
  }
}
