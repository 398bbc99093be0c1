/** The order `mostrarResultados` puts the attendance events in: by project,
    then full name, then date, then time. `Array.prototype.sort` is stable, so
    events with the same four-part key keep their insertion order; `Ordenar`
    is that stable sort, as the specification the in-place sort of
    `Marcaciones.Pagina.MostrarResultados` is proved against. */
module Ordering {
  import opened Text
  import opened Adapters

  /** The comparator's strict "comes before": the first of the four fields
      that differs decides, by character order. */
  predicate Antes(a: Event, b: Event) {
    if a.proyecto != b.proyecto then StrLt(a.proyecto, b.proyecto)
    else if a.nombreCompleto != b.nombreCompleto then StrLt(a.nombreCompleto, b.nombreCompleto)
    else if a.fecha != b.fecha then StrLt(a.fecha, b.fecha)
    else StrLt(a.hora, b.hora)
  }

  /** The four fields the comparator looks at. */
  predicate MismaClave(a: Event, b: Event) {
    a.proyecto == b.proyecto && a.nombreCompleto == b.nombreCompleto && a.fecha == b.fecha && a.hora == b.hora
  }

  lemma AntesIrreflexivo(a: Event)
    ensures !Antes(a, a)
  {
    StrLtIrreflexive(a.hora);
  }

  lemma AntesAsimetrico(a: Event, b: Event)
    requires Antes(a, b)
    ensures !Antes(b, a)
  {
    if a.proyecto != b.proyecto {
      StrLtAsymmetric(a.proyecto, b.proyecto);
    } else if a.nombreCompleto != b.nombreCompleto {
      StrLtAsymmetric(a.nombreCompleto, b.nombreCompleto);
    } else if a.fecha != b.fecha {
      StrLtAsymmetric(a.fecha, b.fecha);
    } else {
      StrLtAsymmetric(a.hora, b.hora);
    }
  }

  lemma AntesTransitivo(a: Event, b: Event, c: Event)
    requires Antes(a, b) && Antes(b, c)
    ensures Antes(a, c)
  {
    if a.proyecto != b.proyecto || b.proyecto != c.proyecto {
      StrLtCase(a.proyecto, b.proyecto, c.proyecto);
    } else if a.nombreCompleto != b.nombreCompleto || b.nombreCompleto != c.nombreCompleto {
      StrLtCase(a.nombreCompleto, b.nombreCompleto, c.nombreCompleto);
    } else if a.fecha != b.fecha || b.fecha != c.fecha {
      StrLtCase(a.fecha, b.fecha, c.fecha);
    } else {
      StrLtTransitive(a.hora, b.hora, c.hora);
    }
  }

  /** One field of a lexicographic comparison: if `x <= y <= z` with one of the
      two steps strict, then `x < z`. */
  lemma StrLtCase(x: string, y: string, z: string)
    requires x != y || y != z
    requires x != y ==> StrLt(x, y)
    requires y != z ==> StrLt(y, z)
    ensures x != z && StrLt(x, z)
  {
    if x != y && y != z {
      StrLtTransitive(x, y, z);
    }
    StrLtIrreflexive(x);
  }

  /** Two events neither of which comes before the other have the same key. */
  lemma AntesTotal(a: Event, b: Event)
    requires !Antes(a, b) && !Antes(b, a)
    ensures MismaClave(a, b)
  {
    if a.proyecto != b.proyecto {
      StrLtTotal(a.proyecto, b.proyecto);
    } else if a.nombreCompleto != b.nombreCompleto {
      StrLtTotal(a.nombreCompleto, b.nombreCompleto);
    } else if a.fecha != b.fecha {
      StrLtTotal(a.fecha, b.fecha);
    } else if a.hora != b.hora {
      StrLtTotal(a.hora, b.hora);
    }
  }

  /** Non-decreasing in the comparator's key. */
  ghost predicate Ordenado(s: seq<Event>) {
    forall i, j :: 0 <= i < j < |s| ==> !Antes(s[j], s[i])
  }

  /** Where a stable insertion places `x` into `t`: before the first element
      `x` comes strictly before, so after every element not greater than it. */
  function Posicion(t: seq<Event>, x: Event): (p: nat)
    ensures p <= |t|
    ensures forall k :: 0 <= k < p ==> !Antes(x, t[k])
    ensures p < |t| ==> Antes(x, t[p])
    decreases |t|
  {
    if |t| == 0 then 0
    else if Antes(x, t[0]) then 0
    else 1 + Posicion(t[1..], x)
  }

  /** `t` with `x` inserted at its stable position. */
  function Insertar(t: seq<Event>, x: Event): seq<Event> {
    t[..Posicion(t, x)] + [x] + t[Posicion(t, x)..]
  }

  /** The stable sort of `s`: its elements inserted one by one, in order. */
  function Ordenar(s: seq<Event>): seq<Event>
    decreases |s|
  {
    if |s| == 0 then [] else Insertar(Ordenar(s[..|s| - 1]), s[|s| - 1])
  }

  lemma {:induction false} InsertarOrdenado(t: seq<Event>, x: Event)
    requires Ordenado(t)
    ensures Ordenado(Insertar(t, x))
  {
    var p := Posicion(t, x);
    var r := Insertar(t, x);
    assert r == t[..p] + [x] + t[p..];
    forall i, j | 0 <= i < j < |r|
      ensures !Antes(r[j], r[i])
    {
      if j < p {
        assert r[i] == t[i] && r[j] == t[j];
      } else if j == p {
        assert r[i] == t[i] && r[j] == x;
        if Antes(x, t[i]) {
          assert false;
        }
      } else if i == p {
        assert r[i] == x && r[j] == t[j - 1];
        // x comes before t[p], which does not come after t[j - 1]
        if Antes(t[j - 1], x) {
          AntesTransitivo(t[j - 1], x, t[p]);
          if j - 1 == p {
            AntesIrreflexivo(t[p]);
          }
          assert false;
        }
      } else if i < p {
        assert r[i] == t[i] && r[j] == t[j - 1];
      } else {
        assert r[i] == t[i - 1] && r[j] == t[j - 1];
      }
    }
  }

  /** Inserting adds exactly `x` to the multiset of elements. */
  lemma InsertarPermutacion(t: seq<Event>, x: Event)
    ensures multiset(Insertar(t, x)) == multiset(t) + multiset{x}
  {
    var p := Posicion(t, x);
    calc {
      multiset(Insertar(t, x));
      multiset(t[..p]) + multiset{x} + multiset(t[p..]);
      { assert t == t[..p] + t[p..]; }
      multiset(t) + multiset{x};
    }
  }

  lemma {:induction false} OrdenarOrdenado(s: seq<Event>)
    ensures Ordenado(Ordenar(s))
    decreases |s|
  {
    if |s| > 0 {
      OrdenarOrdenado(s[..|s| - 1]);
      InsertarOrdenado(Ordenar(s[..|s| - 1]), s[|s| - 1]);
    }
  }

  lemma {:induction false} OrdenarPermutacion(s: seq<Event>)
    ensures multiset(Ordenar(s)) == multiset(s)
    decreases |s|
  {
    if |s| > 0 {
      var init := s[..|s| - 1];
      OrdenarPermutacion(init);
      InsertarPermutacion(Ordenar(init), s[|s| - 1]);
      assert s == init + [s[|s| - 1]];
    }
  }

  /** The result is ordered and a permutation of the input. */
  lemma OrdenarCorrecto(s: seq<Event>)
    ensures Ordenado(Ordenar(s))
    ensures multiset(Ordenar(s)) == multiset(s)
    ensures |Ordenar(s)| == |s|
  {
    OrdenarOrdenado(s);
    OrdenarPermutacion(s);
    assert |multiset(Ordenar(s))| == |multiset(s)|;
  }

  /** The events of `s` whose key is the key of `k`, in their order in `s`. */
  function ConClave(s: seq<Event>, k: Event): (r: seq<Event>)
    ensures |r| <= |s|
    decreases |s|
  {
    if |s| == 0 then []
    else ConClave(s[..|s| - 1], k) + (if MismaClave(s[|s| - 1], k) then [s[|s| - 1]] else [])
  }

  lemma {:induction false} ConClaveConcat(a: seq<Event>, b: seq<Event>, k: Event)
    ensures ConClave(a + b, k) == ConClave(a, k) + ConClave(b, k)
    decreases |b|
  {
    if |b| == 0 {
      assert a + b == a;
    } else {
      ConClaveConcat(a, b[..|b| - 1], k);
      assert (a + b)[..|a + b| - 1] == a + b[..|b| - 1];
    }
  }

  lemma {:induction false} ConClaveVacio(s: seq<Event>, k: Event)
    requires forall e :: e in s ==> !MismaClave(e, k)
    ensures ConClave(s, k) == []
    decreases |s|
  {
    if |s| > 0 {
      assert forall e :: e in s[..|s| - 1] ==> e in s;
      ConClaveVacio(s[..|s| - 1], k);
    }
  }

  /** In an ordered list, nothing from `x`'s stable position on shares
      `x`'s key: `x` comes strictly before all of it. */
  lemma PosteriorAjeno(t: seq<Event>, x: Event, k: Event)
    requires Ordenado(t)
    requires MismaClave(x, k)
    ensures forall e :: e in t[Posicion(t, x)..] ==> !MismaClave(e, k)
  {
    var p := Posicion(t, x);
    forall e | e in t[p..]
      ensures !MismaClave(e, k)
    {
      var i :| p <= i < |t| && t[i] == e;
      // x comes before t[p], and t[p] does not come after t[i]
      if i > p {
        if Antes(t[p], t[i]) {
          AntesTransitivo(x, t[p], t[i]);
        } else {
          AntesTotal(t[p], t[i]);
        }
      }
      assert Antes(x, t[i]);
      if MismaClave(t[i], k) {
        AntesIrreflexivo(x);
      }
    }
  }

  /** The events of a single event with the key of `k`. */
  lemma ConClaveUno(x: Event, k: Event)
    ensures ConClave([x], k) == (if MismaClave(x, k) then [x] else [])
  {
    assert [x][..0] == [];
  }

  /** `ConClave` of three consecutive pieces. */
  lemma ConClaveTres(a: seq<Event>, x: Event, b: seq<Event>, k: Event)
    ensures ConClave(a + [x] + b, k) == ConClave(a, k) + ConClave([x], k) + ConClave(b, k)
  {
    ConClaveConcat(a + [x], b, k);
    ConClaveConcat(a, [x], k);
  }

  /** Putting `x`, of the key of `k`, between `a` and `b`, where nothing
      has that key, appends `x` to the events of `a + b` with that key. */
  lemma InsertarMismaClave(a: seq<Event>, x: Event, b: seq<Event>, k: Event)
    requires MismaClave(x, k) && ConClave(b, k) == []
    ensures ConClave(a + [x] + b, k) == ConClave(a + b, k) + [x]
  {
    ConClaveTres(a, x, b, k);
    ConClaveConcat(a, b, k);
    ConClaveUno(x, k);
    assert ConClave(a + b, k) == ConClave(a, k) + [];
  }

  /** Putting `x`, not of the key of `k`, anywhere leaves the events with
      that key as they were. */
  lemma InsertarOtraClave(a: seq<Event>, x: Event, b: seq<Event>, k: Event)
    requires !MismaClave(x, k)
    ensures ConClave(a + [x] + b, k) == ConClave(a + b, k)
  {
    ConClaveTres(a, x, b, k);
    ConClaveConcat(a, b, k);
    ConClaveUno(x, k);
    assert ConClave(a, k) + [] == ConClave(a, k);
  }

  /** Inserting `x` into an ordered list appends it to the events with its
      own key and leaves every other key's events as they were. */
  lemma InsertarEstable(t: seq<Event>, x: Event, k: Event)
    requires Ordenado(t)
    ensures ConClave(Insertar(t, x), k) == ConClave(t, k) + (if MismaClave(x, k) then [x] else [])
  {
    var p := Posicion(t, x);
    assert t[..p] + t[p..] == t;
    if MismaClave(x, k) {
      PosteriorAjeno(t, x, k);
      ConClaveVacio(t[p..], k);
      InsertarMismaClave(t[..p], x, t[p..], k);
    } else {
      InsertarOtraClave(t[..p], x, t[p..], k);
    }
  }

  /** Stability: the events sharing any one key appear in the sorted list in
      the order they had before the sort. */
  lemma {:induction false} OrdenarEstable(s: seq<Event>, k: Event)
    ensures ConClave(Ordenar(s), k) == ConClave(s, k)
    decreases |s|
  {
    if |s| > 0 {
      var init := s[..|s| - 1];
      OrdenarEstable(init, k);
      OrdenarCorrecto(init);
      InsertarEstable(Ordenar(init), s[|s| - 1], k);
    }
  }

  /** An already ordered list is left as it is. */
  lemma {:induction false} OrdenarIdempotente(s: seq<Event>)
    requires Ordenado(s)
    ensures Ordenar(s) == s
    decreases |s|
  {
    if |s| > 0 {
      var init := s[..|s| - 1];
      var x := s[|s| - 1];
      assert Ordenado(init);
      OrdenarIdempotente(init);
      var p := Posicion(init, x);
      if p < |init| {
        assert false;
      }
      assert init[..p] == init && init[p..] == [];
    }
  }
}
