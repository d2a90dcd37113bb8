/** The signal handlers that keep two denormalised counters in step with the
    catalogue: `Subcurso.cantidad_modulos` (how many modules point at the
    sub-course) and `Curso.cantidadSubcursos` (how many sub-courses point at
    the course).  Each operation is the database write together with the
    handler it triggers. */
module Signals {
  import opened Base

  /** A sub-course row: its course and its module counter. */
  datatype SubcursoFila = SubcursoFila(curso: nat, cantidadModulos: int)

  /** The error the module handlers raise when they touch the counter of a
      module without a sub-course (attribute access on `None`). */
  const ErrorSinSubcurso: string := "'NoneType' object has no attribute 'cantidad_modulos'"

  /** The error the save handler raises when it re-saves a module without a
      sub-course: it skips the counter and fails on the progress refresh. */
  const ErrorProgresoSinSubcurso: string := "'NoneType' object has no attribute 'actualizar_progreso'"

  /** The modules that point at a sub-course. */
  function ModulosDelSubcurso(modulos: map<nat, Option<nat>>, subcurso: nat): (r: set<nat>)
    ensures r <= modulos.Keys
  {
    set m | m in modulos && modulos[m] == Some(subcurso)
  }

  /** The sub-courses that point at a course (`curso.subcursos`). */
  function SubcursosDelCurso(subcursos: map<nat, SubcursoFila>, curso: nat): (r: set<nat>)
    ensures r <= subcursos.Keys
  {
    set s | s in subcursos && subcursos[s].curso == curso
  }

  /** A module is counted under at most one sub-course. */
  lemma ModulosDisjuntos(modulos: map<nat, Option<nat>>, a: nat, b: nat)
    requires a != b
    ensures ModulosDelSubcurso(modulos, a) !! ModulosDelSubcurso(modulos, b)
  {
  }

  /** A sub-course is counted under at most one course. */
  lemma SubcursosDisjuntos(subcursos: map<nat, SubcursoFila>, a: nat, b: nat)
    requires a != b
    ensures SubcursosDelCurso(subcursos, a) !! SubcursosDelCurso(subcursos, b)
  {
  }

  /** Every foreign key resolves, and both counters equal the actual counts. */
  ghost predicate Consistente(cursos: map<nat, int>, subcursos: map<nat, SubcursoFila>, modulos: map<nat, Option<nat>>)
  {
    && (forall s :: s in subcursos ==> subcursos[s].curso in cursos)
    && (forall m :: m in modulos && modulos[m].Some? ==> modulos[m].value in subcursos)
    && (forall s :: s in subcursos ==> subcursos[s].cantidadModulos == |ModulosDelSubcurso(modulos, s)|)
    && (forall c :: c in cursos ==> cursos[c] == |SubcursosDelCurso(subcursos, c)|)
  }

  // ---------------------------------------------------------------------------
  // How the counts move when one row is inserted, deleted or re-pointed.

  /** Inserting a module adds one to the count of its sub-course only. */
  lemma ModulosDeAlta(modulos: map<nat, Option<nat>>, m: nat, subcurso: Option<nat>, s: nat)
    requires m !in modulos
    ensures |ModulosDelSubcurso(modulos[m := subcurso], s)| == |ModulosDelSubcurso(modulos, s)| + (if subcurso == Some(s) then 1 else 0)
  {
    if subcurso == Some(s) {
      assert ModulosDelSubcurso(modulos[m := subcurso], s) == ModulosDelSubcurso(modulos, s) + {m};
    } else {
      assert ModulosDelSubcurso(modulos[m := subcurso], s) == ModulosDelSubcurso(modulos, s);
    }
  }

  /** Deleting a module takes one from the count of its sub-course only. */
  lemma ModulosDeBaja(modulos: map<nat, Option<nat>>, m: nat, s: nat)
    requires m in modulos
    ensures |ModulosDelSubcurso(modulos - {m}, s)| == |ModulosDelSubcurso(modulos, s)| - (if modulos[m] == Some(s) then 1 else 0)
  {
    if modulos[m] == Some(s) {
      assert ModulosDelSubcurso(modulos, s) == ModulosDelSubcurso(modulos - {m}, s) + {m};
    } else {
      assert ModulosDelSubcurso(modulos - {m}, s) == ModulosDelSubcurso(modulos, s);
    }
  }

  /** Re-pointing a module moves it from the old sub-course's count to the new one's. */
  lemma ModulosDeCambio(modulos: map<nat, Option<nat>>, m: nat, subcurso: Option<nat>, s: nat)
    requires m in modulos
    ensures |ModulosDelSubcurso(modulos[m := subcurso], s)|
      == |ModulosDelSubcurso(modulos, s)| - (if modulos[m] == Some(s) then 1 else 0) + (if subcurso == Some(s) then 1 else 0)
  {
    ModulosDeBaja(modulos, m, s);
    ModulosDeAlta(modulos - {m}, m, subcurso, s);
    assert (modulos - {m})[m := subcurso] == modulos[m := subcurso];
  }

  /** Inserting a sub-course adds one to the count of its course only. */
  lemma SubcursosDeAlta(subcursos: map<nat, SubcursoFila>, s: nat, fila: SubcursoFila, c: nat)
    requires s !in subcursos
    ensures |SubcursosDelCurso(subcursos[s := fila], c)| == |SubcursosDelCurso(subcursos, c)| + (if fila.curso == c then 1 else 0)
  {
    if fila.curso == c {
      assert SubcursosDelCurso(subcursos[s := fila], c) == SubcursosDelCurso(subcursos, c) + {s};
    } else {
      assert SubcursosDelCurso(subcursos[s := fila], c) == SubcursosDelCurso(subcursos, c);
    }
  }

  /** Deleting a sub-course takes one from the count of its course only. */
  lemma SubcursosDeBaja(subcursos: map<nat, SubcursoFila>, s: nat, c: nat)
    requires s in subcursos
    ensures |SubcursosDelCurso(subcursos - {s}, c)| == |SubcursosDelCurso(subcursos, c)| - (if subcursos[s].curso == c then 1 else 0)
  {
    if subcursos[s].curso == c {
      assert SubcursosDelCurso(subcursos, c) == SubcursosDelCurso(subcursos - {s}, c) + {s};
    } else {
      assert SubcursosDelCurso(subcursos - {s}, c) == SubcursosDelCurso(subcursos, c);
    }
  }

  /** Re-pointing a sub-course moves it from the old course's count to the new one's. */
  lemma SubcursosDeCambio(subcursos: map<nat, SubcursoFila>, s: nat, fila: SubcursoFila, c: nat)
    requires s in subcursos
    ensures |SubcursosDelCurso(subcursos[s := fila], c)|
      == |SubcursosDelCurso(subcursos, c)| - (if subcursos[s].curso == c then 1 else 0) + (if fila.curso == c then 1 else 0)
  {
    SubcursosDeBaja(subcursos, s, c);
    SubcursosDeAlta(subcursos - {s}, s, fila, c);
    assert (subcursos - {s})[s := fila] == subcursos[s := fila];
  }

  /** The modules left after the cascade that deletes a sub-course. */
  function SinModulosDe(modulos: map<nat, Option<nat>>, subcurso: nat): (r: map<nat, Option<nat>>)
    ensures forall m :: m in r <==> m in modulos && modulos[m] != Some(subcurso)
    ensures forall m :: m in r ==> r[m] == modulos[m]
  {
    map m | m in modulos && modulos[m] != Some(subcurso) :: modulos[m]
  }

  /** The cascade leaves the module counts of the other sub-courses as they were. */
  lemma SinModulosDeCuenta(modulos: map<nat, Option<nat>>, subcurso: nat, s: nat)
    requires s != subcurso
    ensures ModulosDelSubcurso(SinModulosDe(modulos, subcurso), s) == ModulosDelSubcurso(modulos, s)
  {
  }

  /** The sub-course rows after `cantidad_modulos += 1` on one of them. */
  function Incrementado(subcursos: map<nat, SubcursoFila>, s: nat): map<nat, SubcursoFila>
    requires s in subcursos
  {
    subcursos[s := subcursos[s].(cantidadModulos := subcursos[s].cantidadModulos + 1)]
  }

  /** The sub-course rows after `cantidad_modulos -= 1` on one of them. */
  function Decrementado(subcursos: map<nat, SubcursoFila>, s: nat): map<nat, SubcursoFila>
    requires s in subcursos
  {
    subcursos[s := subcursos[s].(cantidadModulos := subcursos[s].cantidadModulos - 1)]
  }

  /** Changing a module counter moves no sub-course to another course. */
  lemma MismosCursos(subcursos: map<nat, SubcursoFila>, s: nat, fila: SubcursoFila, c: nat)
    requires s in subcursos && fila.curso == subcursos[s].curso
    ensures SubcursosDelCurso(subcursos[s := fila], c) == SubcursosDelCurso(subcursos, c)
  {
  }

  // ---------------------------------------------------------------------------
  // The catalogue and its operations.

  /** The catalogue tables the counter handlers read and write. */
  class Contadores {
    /** `Curso.cantidadSubcursos`, by course id. */
    var cursos: map<nat, int>
    /** The sub-course rows, by id. */
    var subcursos: map<nat, SubcursoFila>
    /** Each module's nullable sub-course, by module id. */
    var modulos: map<nat, Option<nat>>

    ghost predicate Valid()
      reads this
    {
      Consistente(cursos, subcursos, modulos)
    }

    constructor ()
      ensures Valid()
      ensures cursos == map[] && subcursos == map[] && modulos == map[]
    {
      cursos, subcursos, modulos := map[], map[], map[];
    }

    /** Creating a course: its counter starts at the column default 0. */
    method CrearCurso(c: nat)
      requires c !in cursos
      modifies this
      ensures cursos == old(cursos)[c := 0]
      ensures subcursos == old(subcursos) && modulos == old(modulos)
      ensures old(Valid()) ==> Valid()
    {
      if Valid() {
        assert SubcursosDelCurso(subcursos, c) == {};
      }
      cursos := cursos[c := 0];
    }

    /** `Modulo.save` and `actualizar_cantidad_modulos_y_progreso`.  The row is
        written first; then, for a new module, its sub-course's counter goes up
        by one.  A module without a sub-course makes the handler raise after
        the row is written: on the counter when the module is new, on the
        progress refresh when it is re-saved.  Re-saving an existing module leaves every counter
        alone, so moving it to another sub-course leaves both counts stale. */
    method GuardarModulo(m: nat, subcurso: Option<nat>) returns (r: Outcome<string>)
      requires subcurso.Some? ==> subcurso.value in subcursos
      modifies this
      ensures modulos == old(modulos)[m := subcurso]
      ensures cursos == old(cursos)
      ensures m !in old(modulos) && subcurso.Some? ==> subcursos == Incrementado(old(subcursos), subcurso.value)
      ensures m in old(modulos) || subcurso.None? ==> subcursos == old(subcursos)
      ensures subcurso.None? && m !in old(modulos) ==> r == Fail(ErrorSinSubcurso)
      ensures subcurso.None? && m in old(modulos) ==> r == Fail(ErrorProgresoSinSubcurso)
      ensures subcurso.Some? ==> r == Pass
      ensures old(Valid()) ==> (Valid() <==> m !in old(modulos) || old(modulos)[m] == subcurso)
    {
      ghost var antes := modulos;
      var creado := m !in modulos;
      modulos := modulos[m := subcurso];
      if subcurso.None? {
        r := Fail(if creado then ErrorSinSubcurso else ErrorProgresoSinSubcurso);
      } else {
        var s := subcurso.value;
        if creado {
          subcursos := Incrementado(subcursos, s);
        }
        r := Pass;
      }
      if old(Valid()) {
        GuardarModuloCuentas(cursos, old(subcursos), antes, m, subcurso);
      }
    }

    /** `Modulo.delete` and `disminuir_cantidad_modulos`.  The counter of the
        module's sub-course goes down by one only while it is positive; a
        sub-course row that no longer exists is ignored.  A module without a
        sub-course makes the handler raise, which rolls the delete back. */
    method EliminarModulo(m: nat) returns (r: Outcome<string>)
      requires m in modulos
      modifies this
      ensures old(modulos)[m].None? ==> r == Fail(ErrorSinSubcurso) && unchanged(this)
      ensures old(modulos)[m].Some? ==>
        var s := old(modulos)[m].value;
        && r == Pass
        && modulos == old(modulos) - {m}
        && cursos == old(cursos)
        && subcursos == (if s in old(subcursos) && old(subcursos)[s].cantidadModulos > 0
                         then Decrementado(old(subcursos), s) else old(subcursos))
      ensures forall s :: s in subcursos && old(subcursos)[s].cantidadModulos >= 0 ==> subcursos[s].cantidadModulos >= 0
      ensures old(Valid()) ==> Valid()
    {
      if modulos[m].None? {
        return Fail(ErrorSinSubcurso);
      }
      ghost var antes := modulos;
      var s := modulos[m].value;
      modulos := modulos - {m};
      if s in subcursos && subcursos[s].cantidadModulos > 0 {
        subcursos := Decrementado(subcursos, s);
      }
      r := Pass;
      if old(Valid()) {
        EliminarModuloCuentas(cursos, old(subcursos), antes, m);
      }
    }

    /** `Subcurso.save` and `actualizar_cantidad_subcursos`.  A new sub-course
        starts with no modules, and its course's counter is recounted from the
        table; re-saving an existing one leaves every counter alone. */
    method GuardarSubcurso(s: nat, curso: nat)
      requires curso in cursos
      modifies this
      ensures s !in old(subcursos) ==>
        && subcursos == old(subcursos)[s := SubcursoFila(curso, 0)]
        && cursos == old(cursos)[curso := |SubcursosDelCurso(subcursos, curso)|]
      ensures s in old(subcursos) ==>
        && subcursos == old(subcursos)[s := old(subcursos)[s].(curso := curso)]
        && cursos == old(cursos)
      ensures modulos == old(modulos)
      ensures old(Valid()) ==> (Valid() <==> s !in old(subcursos) || old(subcursos)[s].curso == curso)
    {
      ghost var antes := subcursos;
      if s !in subcursos {
        subcursos := subcursos[s := SubcursoFila(curso, 0)];
        cursos := cursos[curso := |SubcursosDelCurso(subcursos, curso)|];
      } else {
        subcursos := subcursos[s := subcursos[s].(curso := curso)];
      }
      if old(Valid()) {
        GuardarSubcursoCuentas(old(cursos), antes, modulos, s, curso);
      }
    }

    /** `Subcurso.delete` and `disminuir_cantidad_subcursos`.  Its modules are
        deleted with it (the foreign key cascades), and its course's counter
        is recounted from the remaining rows. */
    method EliminarSubcurso(s: nat)
      requires s in subcursos && subcursos[s].curso in cursos
      modifies this
      ensures modulos == SinModulosDe(old(modulos), s)
      ensures subcursos == old(subcursos) - {s}
      ensures var c := old(subcursos)[s].curso;
        cursos == old(cursos)[c := |SubcursosDelCurso(subcursos, c)|]
      ensures old(Valid()) ==> Valid()
    {
      var c := subcursos[s].curso;
      modulos := SinModulosDe(modulos, s);
      subcursos := subcursos - {s};
      cursos := cursos[c := |SubcursosDelCurso(subcursos, c)|];
      if old(Valid()) {
        EliminarSubcursoCuentas(old(cursos), old(subcursos), old(modulos), s);
      }
    }
  }

  // ---------------------------------------------------------------------------
  // The invariant across each operation.

  /** Saving a module keeps the counts exact if and only if the module is new
      or keeps its sub-course. */
  lemma GuardarModuloCuentas(cursos: map<nat, int>, subcursos: map<nat, SubcursoFila>, modulos: map<nat, Option<nat>>,
                             m: nat, subcurso: Option<nat>)
    requires Consistente(cursos, subcursos, modulos)
    requires subcurso.Some? ==> subcurso.value in subcursos
    ensures Consistente(cursos, if m !in modulos && subcurso.Some? then Incrementado(subcursos, subcurso.value) else subcursos,
                        modulos[m := subcurso])
      <==> m !in modulos || modulos[m] == subcurso
  {
    var nuevos := if m !in modulos && subcurso.Some? then Incrementado(subcursos, subcurso.value) else subcursos;
    var mods := modulos[m := subcurso];
    forall c ensures SubcursosDelCurso(nuevos, c) == SubcursosDelCurso(subcursos, c) {
      if m !in modulos && subcurso.Some? {
        var s := subcurso.value;
        MismosCursos(subcursos, s, subcursos[s].(cantidadModulos := subcursos[s].cantidadModulos + 1), c);
      }
    }
    if m !in modulos {
      forall s | s in nuevos ensures nuevos[s].cantidadModulos == |ModulosDelSubcurso(mods, s)| {
        ModulosDeAlta(modulos, m, subcurso, s);
      }
    } else if modulos[m] == subcurso {
      assert mods == modulos;
    } else if modulos[m].Some? {
      var s := modulos[m].value;
      ModulosDeCambio(modulos, m, subcurso, s);
      assert nuevos[s].cantidadModulos != |ModulosDelSubcurso(mods, s)|;
    } else {
      var s := subcurso.value;
      ModulosDeCambio(modulos, m, subcurso, s);
      assert nuevos[s].cantidadModulos != |ModulosDelSubcurso(mods, s)|;
    }
  }

  /** With exact counts, the sub-course of a module being deleted has a
      positive counter, and decrementing it keeps the counts exact. */
  lemma EliminarModuloCuentas(cursos: map<nat, int>, subcursos: map<nat, SubcursoFila>, modulos: map<nat, Option<nat>>, m: nat)
    requires Consistente(cursos, subcursos, modulos)
    requires m in modulos && modulos[m].Some?
    ensures modulos[m].value in subcursos && subcursos[modulos[m].value].cantidadModulos > 0
    ensures Consistente(cursos, Decrementado(subcursos, modulos[m].value), modulos - {m})
  {
    var s := modulos[m].value;
    var nuevos := Decrementado(subcursos, s);
    assert m in ModulosDelSubcurso(modulos, s);
    forall c ensures SubcursosDelCurso(nuevos, c) == SubcursosDelCurso(subcursos, c) {
      MismosCursos(subcursos, s, subcursos[s].(cantidadModulos := subcursos[s].cantidadModulos - 1), c);
    }
    forall t | t in nuevos ensures nuevos[t].cantidadModulos == |ModulosDelSubcurso(modulos - {m}, t)| {
      ModulosDeBaja(modulos, m, t);
    }
  }

  /** Creating a sub-course keeps the counts exact, and the recount then adds
      exactly one to its course; re-saving one keeps them exact if and only if
      it stays in its course. */
  lemma GuardarSubcursoCuentas(cursos: map<nat, int>, subcursos: map<nat, SubcursoFila>, modulos: map<nat, Option<nat>>,
                               s: nat, curso: nat)
    requires Consistente(cursos, subcursos, modulos)
    requires curso in cursos
    ensures s !in subcursos ==>
      var nuevos := subcursos[s := SubcursoFila(curso, 0)];
      && |SubcursosDelCurso(nuevos, curso)| == cursos[curso] + 1
      && Consistente(cursos[curso := |SubcursosDelCurso(nuevos, curso)|], nuevos, modulos)
    ensures s in subcursos ==>
      (Consistente(cursos, subcursos[s := subcursos[s].(curso := curso)], modulos) <==> subcursos[s].curso == curso)
  {
    if s !in subcursos {
      var nuevos := subcursos[s := SubcursoFila(curso, 0)];
      assert ModulosDelSubcurso(modulos, s) == {};
      forall c ensures |SubcursosDelCurso(nuevos, c)| == |SubcursosDelCurso(subcursos, c)| + (if curso == c then 1 else 0) {
        SubcursosDeAlta(subcursos, s, SubcursoFila(curso, 0), c);
      }
    } else {
      var nuevos := subcursos[s := subcursos[s].(curso := curso)];
      var c := subcursos[s].curso;
      if c == curso {
        assert nuevos == subcursos;
      } else {
        SubcursosDeCambio(subcursos, s, subcursos[s].(curso := curso), c);
        assert cursos[c] != |SubcursosDelCurso(nuevos, c)|;
      }
    }
  }

  /** Deleting a sub-course with its modules keeps the counts exact, and the
      recount then takes exactly one from its course. */
  lemma EliminarSubcursoCuentas(cursos: map<nat, int>, subcursos: map<nat, SubcursoFila>, modulos: map<nat, Option<nat>>, s: nat)
    requires Consistente(cursos, subcursos, modulos)
    requires s in subcursos
    ensures var c := subcursos[s].curso; var nuevos := subcursos - {s};
      && |SubcursosDelCurso(nuevos, c)| == cursos[c] - 1
      && Consistente(cursos[c := |SubcursosDelCurso(nuevos, c)|], nuevos, SinModulosDe(modulos, s))
  {
    var c := subcursos[s].curso;
    var nuevos := subcursos - {s};
    forall d ensures |SubcursosDelCurso(nuevos, d)| == |SubcursosDelCurso(subcursos, d)| - (if c == d then 1 else 0) {
      SubcursosDeBaja(subcursos, s, d);
    }
    forall t | t in nuevos ensures nuevos[t].cantidadModulos == |ModulosDelSubcurso(SinModulosDe(modulos, s), t)| {
      SinModulosDeCuenta(modulos, s, t);
    }
  }
}
