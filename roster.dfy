/** The roster the tool works against: employees (`funcionarios`) and
    projects (`proyectos`), as loaded from the JSON data files. */
module Roster {
  import opened Wrappers

  /** One employee record. `codigo` is the empty string when the record has
      no code; `email` and `telefono` are `None` where the JSON holds `null`. */
  datatype Employee = Employee(
    id: int,
    codigo: string,
    proyecto: string,
    nombreCompleto: string,
    nombre: string,
    apellido: string,
    cargo: string,
    email: Option<string>,
    telefono: Option<string>,
    activo: bool,
    fechaRegistro: string,
    fechaActualizacion: string)

  datatype Project = Project(
    id: string,
    nombre: string,
    descripcion: string,
    codigoColor: string,
    activo: bool)

  /** `list.findIndex(f => f.id === id)`, counting from `from`. */
  function IndexOfId(list: seq<Employee>, id: int, from: nat := 0): (r: Option<nat>)
    ensures r.Some? ==> from <= r.value < |list| && list[r.value].id == id
    ensures r.Some? ==> forall j :: from <= j < r.value ==> list[j].id != id
    ensures r.None? ==> forall j :: from <= j < |list| ==> list[j].id != id
    decreases |list| - from
  {
    if from >= |list| then None
    else if list[from].id == id then Some(from)
    else IndexOfId(list, id, from + 1)
  }

  /** `list.filter(f => f.id !== id)`. */
  function WithoutId(list: seq<Employee>, id: int): (r: seq<Employee>)
    ensures |r| <= |list|
    ensures forall f :: f in r <==> f in list && f.id != id
    decreases |list|
  {
    if |list| == 0 then []
    else if list[0].id == id then WithoutId(list[1..], id)
    else [list[0]] + WithoutId(list[1..], id)
  }

  /** Filtering keeps order and multiplicity: it distributes over
      concatenation ... */
  lemma {:induction false} WithoutIdConcat(a: seq<Employee>, b: seq<Employee>, id: int)
    ensures WithoutId(a + b, id) == WithoutId(a, id) + WithoutId(b, id)
    decreases |a|
  {
    if |a| == 0 {
      assert a + b == b;
    } else {
      assert (a + b)[1..] == a[1..] + b;
      WithoutIdConcat(a[1..], b, id);
      assert [a[0]] + WithoutId(a[1..], id) + WithoutId(b, id) == [a[0]] + (WithoutId(a[1..], id) + WithoutId(b, id));
    }
  }

  /** ... and a single entry is kept exactly when its id differs. */
  lemma WithoutIdSingle(f: Employee, id: int)
    ensures WithoutId([f], id) == if f.id == id then [] else [f]
  {
    assert [f][1..] == [];
  }

  /** Employee codes are pairwise different among the employees that have one. */
  ghost predicate CodigosUnicos(list: seq<Employee>) {
    forall i, j :: 0 <= i < j < |list| && list[i].codigo != "" ==> list[i].codigo != list[j].codigo
  }

  predicate TieneCodigo(list: seq<Employee>, codigo: string) {
    exists i :: 0 <= i < |list| && list[i].codigo == codigo
  }
}
