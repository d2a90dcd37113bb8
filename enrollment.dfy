/** Student registration (`Estudiante.save`, `Estudiante.crear_estudiante_con_cursos`):
    a student joins with an organisation code and is enrolled in every course
    contracted under that code, with incomplete rows for the courses' tests,
    sub-courses and modules. */
module Enrollment {
  import opened Base
  import opened Contracts

  /** Catalogue rows, reduced to their keys and parent links. */
  datatype Prueba = Prueba(id: nat, curso: nat)
  datatype Subcurso = Subcurso(id: nat, curso: nat)
  datatype Modulo = Modulo(id: nat, subcurso: Option<nat>)

  /** The catalogue tables, each in table order. */
  datatype Catalogo = Catalogo(cursos: seq<nat>, pruebas: seq<Prueba>, subcursos: seq<Subcurso>, modulos: seq<Modulo>)

  datatype Rol = RolAdmin | RolInstructor | RolEstudiante

  /** The user fields the registration sets. */
  datatype Estudiante = Estudiante(id: nat, email: string, codigoOrganizacion: string, rol: Rol)

  /** The four kinds of rows the registration creates. */
  datatype ProgresoFila = ProgresoFila(estudiante: nat, curso: nat, completado: bool,
                                       porcentajeCompletado: real, simulacionCompletada: Option<bool>)
  datatype EstudiantePruebaFila = EstudiantePruebaFila(estudiante: nat, prueba: nat, estaAprobado: bool,
                                                       calificacion: real, intento: int)
  datatype EstudianteSubcursoFila = EstudianteSubcursoFila(estudiante: nat, subcurso: nat, completado: bool,
                                                           porcentajeCompletado: real)
  datatype EstudianteModuloFila = EstudianteModuloFila(estudiante: nat, modulo: nat, completado: bool)

  /** What a successful registration stores. */
  datatype Inscripcion = Inscripcion(
    estudiante: Estudiante,
    progresos: seq<ProgresoFila>,
    pruebas: seq<EstudiantePruebaFila>,
    subcursos: seq<EstudianteSubcursoFila>,
    modulos: seq<EstudianteModuloFila>)

  const ErrorCodigoInstructor: string := "El código de organización ingresado no corresponde a un instructor válido."
  const ErrorCodigoContrato: string := "El código de organización ingresado no corresponde a ningún contrato válido."
  const ErrorCreacion: string := "Ocurrió un error al crear el estudiante: "

  /** The initial rows (the column defaults, or the values the registration passes). */
  function ProgresoInicial(estudiante: nat, curso: nat): ProgresoFila
  {
    ProgresoFila(estudiante, curso, false, 0.0, Some(false))
  }

  function PruebaInicial(estudiante: nat, prueba: nat): EstudiantePruebaFila
  {
    EstudiantePruebaFila(estudiante, prueba, false, 0.0, 0)
  }

  function SubcursoInicial(estudiante: nat, subcurso: nat): EstudianteSubcursoFila
  {
    EstudianteSubcursoFila(estudiante, subcurso, false, 0.0)
  }

  function ModuloInicial(estudiante: nat, modulo: nat): EstudianteModuloFila
  {
    EstudianteModuloFila(estudiante, modulo, false)
  }

  // ---------------------------------------------------------------------------
  // Sequences: filtering, mapping and concatenating, each in table order.

  /** The elements that satisfy `p`, in order (a `filter` query). */
  function Filtrar<T>(s: seq<T>, p: T -> bool): (r: seq<T>)
    ensures |r| <= |s|
    ensures forall i :: 0 <= i < |r| ==> p(r[i])
  {
    if |s| == 0 then []
    else
      var last := |s| - 1;
      Filtrar(s[..last], p) + (if p(s[last]) then [s[last]] else [])
  }

  /** A filter keeps exactly the elements that satisfy the condition. */
  lemma {:induction false} FiltrarMiembro<T>(s: seq<T>, p: T -> bool, x: T)
    ensures x in Filtrar(s, p) <==> x in s && p(x)
  {
    if |s| > 0 {
      var last := |s| - 1;
      FiltrarMiembro(s[..last], p, x);
      assert s == s[..last] + [s[last]];
    }
  }

  /** One value per element, in order (one record built per row of a loop). */
  function Mapear<A, B>(s: seq<A>, f: A -> B): (r: seq<B>)
    ensures |r| == |s|
    ensures forall i :: 0 <= i < |s| ==> r[i] == f(s[i])
  {
    if |s| == 0 then [] else Mapear(s[..|s| - 1], f) + [f(s[|s| - 1])]
  }

  lemma MapearMiembro<A, B>(s: seq<A>, f: A -> B, x: B)
    ensures x in Mapear(s, f) <==> exists a :: a in s && x == f(a)
  {
    var r := Mapear(s, f);
    if x in r {
      var i :| 0 <= i < |r| && r[i] == x;
      assert s[i] in s;
    }
    if exists a :: a in s && x == f(a) {
      var a :| a in s && x == f(a);
      var i :| 0 <= i < |s| && s[i] == a;
      assert r[i] == x;
    }
  }

  /** The sequences `f` gives for each element, concatenated in order (the
      records an inner loop appends, over all iterations of the outer one). */
  function Aplanar<A, B>(s: seq<A>, f: A -> seq<B>): seq<B>
  {
    if |s| == 0 then [] else Aplanar(s[..|s| - 1], f) + f(s[|s| - 1])
  }

  lemma {:induction false} AplanarMiembro<A, B>(s: seq<A>, f: A -> seq<B>, x: B)
    ensures x in Aplanar(s, f) <==> exists a :: a in s && x in f(a)
  {
    if |s| > 0 {
      var last := |s| - 1;
      AplanarMiembro(s[..last], f, x);
      assert s == s[..last] + [s[last]];
    }
  }

  /** What holds of every element of every piece holds of the concatenation. */
  lemma {:induction false} AplanarTodos<A, B>(s: seq<A>, f: A -> seq<B>, p: B -> bool)
    requires forall a, x :: a in s && x in f(a) ==> p(x)
    ensures forall x :: x in Aplanar(s, f) ==> p(x)
  {
    if |s| > 0 {
      var last := |s| - 1;
      assert forall a :: a in s[..last] ==> a in s;
      AplanarTodos(s[..last], f, p);
      assert s[last] in s;
    }
  }

  /** No value occurs twice. */
  predicate SinRepetidos<T(==)>(s: seq<T>)
  {
    forall i, j :: 0 <= i < j < |s| ==> s[i] != s[j]
  }

  /** No key occurs twice (a primary key). */
  predicate ClavesUnicas<T, K(==)>(s: seq<T>, clave: T -> K)
  {
    forall i, j :: 0 <= i < j < |s| ==> clave(s[i]) != clave(s[j])
  }

  /** Under a primary key, a key identifies its row. */
  lemma MismaClave<T, K>(s: seq<T>, clave: T -> K, a: T, b: T)
    requires ClavesUnicas(s, clave)
    requires a in s && b in s && clave(a) == clave(b)
    ensures a == b
  {
    var i :| 0 <= i < |s| && s[i] == a;
    var j :| 0 <= j < |s| && s[j] == b;
    assert clave(s[i]) == clave(s[j]);
    assert i == j;
  }

  /** A filter of a table without repeated values has none either. */
  lemma {:induction false} FiltrarSinRepetidos<T>(s: seq<T>, p: T -> bool)
    requires SinRepetidos(s)
    ensures SinRepetidos(Filtrar(s, p))
  {
    if |s| > 0 {
      var last := |s| - 1;
      var init := Filtrar(s[..last], p);
      FiltrarSinRepetidos(s[..last], p);
      if p(s[last]) {
        var r := init + [s[last]];
        forall i, j | 0 <= i < j < |r| ensures r[i] != r[j] {
          if j == |init| {
            FiltrarMiembro(s[..last], p, init[i]);
            var k :| 0 <= k < last && s[..last][k] == init[i];
            assert s[k] == r[i] && r[j] == s[last];
          } else {
            assert r[i] == init[i] && r[j] == init[j];
          }
        }
      }
    }
  }

  /** A filter of a table keeps its primary key unique. */
  lemma {:induction false} FiltrarClavesUnicas<T, K>(s: seq<T>, p: T -> bool, clave: T -> K)
    requires ClavesUnicas(s, clave)
    ensures ClavesUnicas(Filtrar(s, p), clave)
  {
    if |s| > 0 {
      var last := |s| - 1;
      var init := Filtrar(s[..last], p);
      FiltrarClavesUnicas(s[..last], p, clave);
      if p(s[last]) {
        var r := init + [s[last]];
        forall i, j | 0 <= i < j < |r| ensures clave(r[i]) != clave(r[j]) {
          if j == |init| {
            FiltrarMiembro(s[..last], p, init[i]);
            var k :| 0 <= k < last && s[..last][k] == init[i];
            assert s[k] == r[i] && r[j] == s[last];
          } else {
            assert r[i] == init[i] && r[j] == init[j];
          }
        }
      }
    }
  }

  /** Records built from rows with unique keys, one record per key, are distinct. */
  lemma MapearSinRepetidos<A, K, B>(s: seq<A>, f: A -> B, clave: A -> K)
    requires ClavesUnicas(s, clave)
    requires forall a, b :: f(a) == f(b) ==> clave(a) == clave(b)
    ensures SinRepetidos(Mapear(s, f))
  {
  }

  /** Concatenating distinct sequences of distinct elements, disjoint for
      distinct sources, repeats nothing. */
  lemma {:induction false} AplanarSinRepetidos<A, B>(s: seq<A>, f: A -> seq<B>)
    requires SinRepetidos(s)
    requires forall a :: a in s ==> SinRepetidos(f(a))
    requires forall a, b, x :: a in s && b in s && x in f(a) && x in f(b) ==> a == b
    ensures SinRepetidos(Aplanar(s, f))
  {
    if |s| > 0 {
      var last := |s| - 1;
      var init := Aplanar(s[..last], f);
      var cola := f(s[last]);
      AplanarSinRepetidos(s[..last], f);
      var r := init + cola;
      forall i, j | 0 <= i < j < |r| ensures r[i] != r[j] {
        if i >= |init| {
          assert r[i] == cola[i - |init|] && r[j] == cola[j - |init|];
        } else if j >= |init| {
          AplanarMiembro(s[..last], f, init[i]);
          var a :| a in s[..last] && init[i] in f(a);
          var k :| 0 <= k < last && s[..last][k] == a;
          assert s[k] == a;
          assert r[j] in cola;
        } else {
          assert r[i] == init[i] && r[j] == init[j];
        }
      }
    }
  }

  // ---------------------------------------------------------------------------
  // The queries.

  /** Some contract carries the code (`Contrato.objects.filter(codigoOrganizacion=...).exists()`). */
  predicate CodigoValido(contratos: seq<Contrato>, codigo: string)
    ensures CodigoValido(contratos, codigo) ==> |contratos| > 0
    ensures CodigoValido(contratos, codigo) <==> exists c :: c in contratos && c.codigoOrganizacion == codigo
  {
    exists i :: 0 <= i < |contratos| && contratos[i].codigoOrganizacion == codigo
  }

  /** Some contract with the code covers the course. */
  predicate Contratado(contratos: seq<Contrato>, codigo: string, curso: nat)
    ensures Contratado(contratos, codigo, curso) ==> CodigoValido(contratos, codigo)
    ensures Contratado(contratos, codigo, curso) <==>
      exists c :: c in contratos && c.codigoOrganizacion == codigo && c.curso == curso
  {
    exists i :: 0 <= i < |contratos| && contratos[i].codigoOrganizacion == codigo && contratos[i].curso == curso
  }

  /** `Curso.objects.filter(id__in=cursos_ids)`: each contracted course once, in table order. */
  function CursosContratados(cat: Catalogo, contratos: seq<Contrato>, codigo: string): (r: seq<nat>)
    ensures |r| <= |cat.cursos|
    ensures forall i :: 0 <= i < |r| ==> Contratado(contratos, codigo, r[i])
  {
    Filtrar(cat.cursos, (c: nat) => Contratado(contratos, codigo, c))
  }

  function PruebasDe(cat: Catalogo, curso: nat): seq<Prueba>
  {
    Filtrar(cat.pruebas, (p: Prueba) => p.curso == curso)
  }

  function SubcursosDe(cat: Catalogo, curso: nat): seq<Subcurso>
  {
    Filtrar(cat.subcursos, (s: Subcurso) => s.curso == curso)
  }

  function ModulosDe(cat: Catalogo, subcurso: nat): seq<Modulo>
  {
    Filtrar(cat.modulos, (m: Modulo) => m.subcurso == Some(subcurso))
  }

  /** The primary keys of the catalogue tables. */
  function IdPrueba(p: Prueba): nat { p.id }
  function IdSubcurso(s: Subcurso): nat { s.id }
  function IdModulo(m: Modulo): nat { m.id }

  /** Every catalogue table has a unique primary key. */
  ghost predicate CatalogoValido(cat: Catalogo)
  {
    && SinRepetidos(cat.cursos)
    && ClavesUnicas(cat.pruebas, IdPrueba)
    && ClavesUnicas(cat.subcursos, IdSubcurso)
    && ClavesUnicas(cat.modulos, IdModulo)
  }

  // ---------------------------------------------------------------------------
  // The rows the nested loops build.

  function FilasProgreso(estudiante: nat, cursos: seq<nat>): (r: seq<ProgresoFila>)
    ensures |r| == |cursos|
    ensures forall x :: x in r ==> x.estudiante == estudiante && !x.completado && x.porcentajeCompletado == 0.0
  {
    Mapear(cursos, (c: nat) => ProgresoInicial(estudiante, c))
  }

  function FilasPrueba(estudiante: nat, pruebas: seq<Prueba>): (r: seq<EstudiantePruebaFila>)
    ensures forall x :: x in r ==> x.estudiante == estudiante && !x.estaAprobado && x.intento == 0
  {
    Mapear(pruebas, (p: Prueba) => PruebaInicial(estudiante, p.id))
  }

  function FilasSubcurso(estudiante: nat, subcursos: seq<Subcurso>): (r: seq<EstudianteSubcursoFila>)
    ensures forall x :: x in r ==> x.estudiante == estudiante && !x.completado
  {
    Mapear(subcursos, (s: Subcurso) => SubcursoInicial(estudiante, s.id))
  }

  function FilasModulo(estudiante: nat, modulos: seq<Modulo>): (r: seq<EstudianteModuloFila>)
    ensures forall x :: x in r ==> x.estudiante == estudiante && !x.completado
  {
    Mapear(modulos, (m: Modulo) => ModuloInicial(estudiante, m.id))
  }

  /** Module rows for every module of each of the given sub-courses. */
  function FilasModuloSubcursos(estudiante: nat, cat: Catalogo, subcursos: seq<Subcurso>): (r: seq<EstudianteModuloFila>)
    ensures forall x :: x in r ==> x.estudiante == estudiante && !x.completado
  {
    AplanarTodos(subcursos, (s: Subcurso) => FilasModulo(estudiante, ModulosDe(cat, s.id)),
                 (x: EstudianteModuloFila) => x.estudiante == estudiante && !x.completado);
    Aplanar(subcursos, (s: Subcurso) => FilasModulo(estudiante, ModulosDe(cat, s.id)))
  }

  function FilasPruebaCursos(estudiante: nat, cat: Catalogo, cursos: seq<nat>): seq<EstudiantePruebaFila>
  {
    Aplanar(cursos, (c: nat) => FilasPrueba(estudiante, PruebasDe(cat, c)))
  }

  function FilasSubcursoCursos(estudiante: nat, cat: Catalogo, cursos: seq<nat>): seq<EstudianteSubcursoFila>
  {
    Aplanar(cursos, (c: nat) => FilasSubcurso(estudiante, SubcursosDe(cat, c)))
  }

  function FilasModuloCursos(estudiante: nat, cat: Catalogo, cursos: seq<nat>): seq<EstudianteModuloFila>
  {
    Aplanar(cursos, (c: nat) => FilasModuloSubcursos(estudiante, cat, SubcursosDe(cat, c)))
  }

  /** Everything a successful registration of `e` under `codigo` stores. */
  function InscripcionEsperada(cat: Catalogo, contratos: seq<Contrato>, e: Estudiante, codigo: string): (r: Inscripcion)
    ensures r.estudiante.id == e.id && r.estudiante.email == e.email
    ensures r.estudiante.codigoOrganizacion == codigo && r.estudiante.rol == RolEstudiante
    ensures |r.progresos| == |CursosContratados(cat, contratos, codigo)|
    ensures forall x :: x in r.progresos ==> x.estudiante == e.id && !x.completado && x.porcentajeCompletado == 0.0
    ensures forall x :: x in r.pruebas ==> x.estudiante == e.id && !x.estaAprobado && x.intento == 0
    ensures forall x :: x in r.subcursos ==> x.estudiante == e.id && !x.completado
    ensures forall x :: x in r.modulos ==> x.estudiante == e.id && !x.completado
  {
    var cursos := CursosContratados(cat, contratos, codigo);
    AplanarTodos(cursos, (c: nat) => FilasPrueba(e.id, PruebasDe(cat, c)),
                 (x: EstudiantePruebaFila) => x.estudiante == e.id && !x.estaAprobado && x.intento == 0);
    AplanarTodos(cursos, (c: nat) => FilasSubcurso(e.id, SubcursosDe(cat, c)),
                 (x: EstudianteSubcursoFila) => x.estudiante == e.id && !x.completado);
    AplanarTodos(cursos, (c: nat) => FilasModuloSubcursos(e.id, cat, SubcursosDe(cat, c)),
                 (x: EstudianteModuloFila) => x.estudiante == e.id && !x.completado);
    Inscripcion(
      e.(codigoOrganizacion := codigo, rol := RolEstudiante),
      FilasProgreso(e.id, cursos),
      FilasPruebaCursos(e.id, cat, cursos),
      FilasSubcursoCursos(e.id, cat, cursos),
      FilasModuloCursos(e.id, cat, cursos))
  }

  // ---------------------------------------------------------------------------
  // What a registration stores, row by row.

  lemma CursosContratadosMiembro(cat: Catalogo, contratos: seq<Contrato>, codigo: string, c: nat)
    ensures c in CursosContratados(cat, contratos, codigo) <==> c in cat.cursos && Contratado(contratos, codigo, c)
  {
    FiltrarMiembro(cat.cursos, (c: nat) => Contratado(contratos, codigo, c), c);
  }

  /** The test rows of one course. */
  lemma FilasPruebaMiembro(estudiante: nat, cat: Catalogo, curso: nat, x: EstudiantePruebaFila)
    ensures x in FilasPrueba(estudiante, PruebasDe(cat, curso)) <==>
      exists t :: t in cat.pruebas && t.curso == curso && x == PruebaInicial(estudiante, t.id)
  {
    MapearMiembro(PruebasDe(cat, curso), (p: Prueba) => PruebaInicial(estudiante, p.id), x);
    forall t ensures t in PruebasDe(cat, curso) <==> t in cat.pruebas && t.curso == curso {
      FiltrarMiembro(cat.pruebas, (p: Prueba) => p.curso == curso, t);
    }
  }

  /** The sub-course rows of one course. */
  lemma FilasSubcursoMiembro(estudiante: nat, cat: Catalogo, curso: nat, x: EstudianteSubcursoFila)
    ensures x in FilasSubcurso(estudiante, SubcursosDe(cat, curso)) <==>
      exists s :: s in cat.subcursos && s.curso == curso && x == SubcursoInicial(estudiante, s.id)
  {
    MapearMiembro(SubcursosDe(cat, curso), (s: Subcurso) => SubcursoInicial(estudiante, s.id), x);
    forall s ensures s in SubcursosDe(cat, curso) <==> s in cat.subcursos && s.curso == curso {
      FiltrarMiembro(cat.subcursos, (s: Subcurso) => s.curso == curso, s);
    }
  }

  /** The module rows of one sub-course. */
  lemma FilasModuloMiembro(estudiante: nat, cat: Catalogo, subcurso: nat, x: EstudianteModuloFila)
    ensures x in FilasModulo(estudiante, ModulosDe(cat, subcurso)) <==>
      exists m :: m in cat.modulos && m.subcurso == Some(subcurso) && x == ModuloInicial(estudiante, m.id)
  {
    MapearMiembro(ModulosDe(cat, subcurso), (m: Modulo) => ModuloInicial(estudiante, m.id), x);
    forall m ensures m in ModulosDe(cat, subcurso) <==> m in cat.modulos && m.subcurso == Some(subcurso) {
      FiltrarMiembro(cat.modulos, (m: Modulo) => m.subcurso == Some(subcurso), m);
    }
  }

  /** The module rows of one course: a row per module of each of its sub-courses. */
  lemma FilasModuloCursoMiembro(estudiante: nat, cat: Catalogo, curso: nat, x: EstudianteModuloFila)
    ensures x in FilasModuloSubcursos(estudiante, cat, SubcursosDe(cat, curso)) <==>
      exists s, m :: s in cat.subcursos && s.curso == curso && m in cat.modulos && m.subcurso == Some(s.id)
        && x == ModuloInicial(estudiante, m.id)
  {
    var ss := SubcursosDe(cat, curso);
    AplanarMiembro(ss, (s: Subcurso) => FilasModulo(estudiante, ModulosDe(cat, s.id)), x);
    forall s ensures s in ss <==> s in cat.subcursos && s.curso == curso {
      FiltrarMiembro(cat.subcursos, (s: Subcurso) => s.curso == curso, s);
    }
    forall s: Subcurso ensures x in FilasModulo(estudiante, ModulosDe(cat, s.id)) <==>
      exists m :: m in cat.modulos && m.subcurso == Some(s.id) && x == ModuloInicial(estudiante, m.id)
    {
      FilasModuloMiembro(estudiante, cat, s.id, x);
    }
  }

  /** Exactly the contracted courses get a `Progreso` row, incomplete, at 0 %
      and without the simulation done; with distinct course ids, one each. */
  lemma InscripcionProgresos(cat: Catalogo, contratos: seq<Contrato>, e: Estudiante, codigo: string)
    ensures forall x :: x in InscripcionEsperada(cat, contratos, e, codigo).progresos <==>
      x.curso in cat.cursos && Contratado(contratos, codigo, x.curso) && x == ProgresoInicial(e.id, x.curso)
    ensures SinRepetidos(cat.cursos) ==> SinRepetidos(InscripcionEsperada(cat, contratos, e, codigo).progresos)
  {
    var cursos := CursosContratados(cat, contratos, codigo);
    var filas := FilasProgreso(e.id, cursos);
    forall x ensures x in filas <==> x.curso in cat.cursos && Contratado(contratos, codigo, x.curso) && x == ProgresoInicial(e.id, x.curso) {
      MapearMiembro(cursos, (c: nat) => ProgresoInicial(e.id, c), x);
      CursosContratadosMiembro(cat, contratos, codigo, x.curso);
    }
    if SinRepetidos(cat.cursos) {
      FiltrarSinRepetidos(cat.cursos, (c: nat) => Contratado(contratos, codigo, c));
      forall i, j | 0 <= i < j < |filas| ensures filas[i] != filas[j] {
        assert filas[i].curso == cursos[i] && filas[j].curso == cursos[j];
      }
    }
  }

  /** Exactly the tests of contracted courses get an `EstudiantePrueba` row,
      not passed, graded 0 and at attempt 0; with unique keys, one each. */
  lemma InscripcionPruebas(cat: Catalogo, contratos: seq<Contrato>, e: Estudiante, codigo: string)
    ensures forall x :: x in InscripcionEsperada(cat, contratos, e, codigo).pruebas <==>
      exists t :: t in cat.pruebas && t.curso in cat.cursos && Contratado(contratos, codigo, t.curso)
        && x == PruebaInicial(e.id, t.id)
    ensures CatalogoValido(cat) ==> SinRepetidos(InscripcionEsperada(cat, contratos, e, codigo).pruebas)
  {
    var cursos := CursosContratados(cat, contratos, codigo);
    var f := (c: nat) => FilasPrueba(e.id, PruebasDe(cat, c));
    forall c ensures c in cursos <==> c in cat.cursos && Contratado(contratos, codigo, c) {
      CursosContratadosMiembro(cat, contratos, codigo, c);
    }
    forall x ensures x in Aplanar(cursos, f) <==>
      exists t :: t in cat.pruebas && t.curso in cat.cursos && Contratado(contratos, codigo, t.curso)
        && x == PruebaInicial(e.id, t.id)
    {
      AplanarMiembro(cursos, f, x);
      forall c ensures x in f(c) <==> exists t :: t in cat.pruebas && t.curso == c && x == PruebaInicial(e.id, t.id) {
        FilasPruebaMiembro(e.id, cat, c, x);
      }
    }
    if CatalogoValido(cat) {
      FiltrarSinRepetidos(cat.cursos, (c: nat) => Contratado(contratos, codigo, c));
      forall c | c in cursos ensures SinRepetidos(f(c)) {
        FiltrarClavesUnicas(cat.pruebas, (p: Prueba) => p.curso == c, IdPrueba);
        MapearSinRepetidos(PruebasDe(cat, c), (p: Prueba) => PruebaInicial(e.id, p.id), IdPrueba);
      }
      forall a, b, x | a in cursos && b in cursos && x in f(a) && x in f(b) ensures a == b {
        FilasPruebaMiembro(e.id, cat, a, x);
        FilasPruebaMiembro(e.id, cat, b, x);
        var ta :| ta in cat.pruebas && ta.curso == a && x == PruebaInicial(e.id, ta.id);
        var tb :| tb in cat.pruebas && tb.curso == b && x == PruebaInicial(e.id, tb.id);
        MismaClave(cat.pruebas, IdPrueba, ta, tb);
      }
      AplanarSinRepetidos(cursos, f);
    }
  }

  /** Exactly the sub-courses of contracted courses get an `EstudianteSubcurso`
      row, incomplete and at 0 %; with unique keys, one each. */
  lemma InscripcionSubcursos(cat: Catalogo, contratos: seq<Contrato>, e: Estudiante, codigo: string)
    ensures forall x :: x in InscripcionEsperada(cat, contratos, e, codigo).subcursos <==>
      exists s :: s in cat.subcursos && s.curso in cat.cursos && Contratado(contratos, codigo, s.curso)
        && x == SubcursoInicial(e.id, s.id)
    ensures CatalogoValido(cat) ==> SinRepetidos(InscripcionEsperada(cat, contratos, e, codigo).subcursos)
  {
    var cursos := CursosContratados(cat, contratos, codigo);
    var f := (c: nat) => FilasSubcurso(e.id, SubcursosDe(cat, c));
    forall c ensures c in cursos <==> c in cat.cursos && Contratado(contratos, codigo, c) {
      CursosContratadosMiembro(cat, contratos, codigo, c);
    }
    forall x ensures x in Aplanar(cursos, f) <==>
      exists s :: s in cat.subcursos && s.curso in cat.cursos && Contratado(contratos, codigo, s.curso)
        && x == SubcursoInicial(e.id, s.id)
    {
      AplanarMiembro(cursos, f, x);
      forall c ensures x in f(c) <==> exists s :: s in cat.subcursos && s.curso == c && x == SubcursoInicial(e.id, s.id) {
        FilasSubcursoMiembro(e.id, cat, c, x);
      }
    }
    if CatalogoValido(cat) {
      FiltrarSinRepetidos(cat.cursos, (c: nat) => Contratado(contratos, codigo, c));
      forall c | c in cursos ensures SinRepetidos(f(c)) {
        FiltrarClavesUnicas(cat.subcursos, (s: Subcurso) => s.curso == c, IdSubcurso);
        MapearSinRepetidos(SubcursosDe(cat, c), (s: Subcurso) => SubcursoInicial(e.id, s.id), IdSubcurso);
      }
      forall a, b, x | a in cursos && b in cursos && x in f(a) && x in f(b) ensures a == b {
        FilasSubcursoMiembro(e.id, cat, a, x);
        FilasSubcursoMiembro(e.id, cat, b, x);
        var sa :| sa in cat.subcursos && sa.curso == a && x == SubcursoInicial(e.id, sa.id);
        var sb :| sb in cat.subcursos && sb.curso == b && x == SubcursoInicial(e.id, sb.id);
        MismaClave(cat.subcursos, IdSubcurso, sa, sb);
      }
      AplanarSinRepetidos(cursos, f);
    }
  }

  /** With unique keys, the module rows of one course are distinct. */
  lemma FilasModuloCursoSinRepetidos(estudiante: nat, cat: Catalogo, curso: nat)
    requires CatalogoValido(cat)
    ensures SinRepetidos(FilasModuloSubcursos(estudiante, cat, SubcursosDe(cat, curso)))
  {
    var ss := SubcursosDe(cat, curso);
    var g := (s: Subcurso) => FilasModulo(estudiante, ModulosDe(cat, s.id));
    FiltrarClavesUnicas(cat.subcursos, (s: Subcurso) => s.curso == curso, IdSubcurso);
    forall i, j | 0 <= i < j < |ss| ensures ss[i] != ss[j] {
      assert IdSubcurso(ss[i]) != IdSubcurso(ss[j]);
    }
    forall s | s in ss ensures SinRepetidos(g(s)) {
      FiltrarClavesUnicas(cat.modulos, (m: Modulo) => m.subcurso == Some(s.id), IdModulo);
      MapearSinRepetidos(ModulosDe(cat, s.id), (m: Modulo) => ModuloInicial(estudiante, m.id), IdModulo);
    }
    forall a, b, x | a in ss && b in ss && x in g(a) && x in g(b) ensures a == b {
      FilasModuloMiembro(estudiante, cat, a.id, x);
      FilasModuloMiembro(estudiante, cat, b.id, x);
      var ma :| ma in cat.modulos && ma.subcurso == Some(a.id) && x == ModuloInicial(estudiante, ma.id);
      var mb :| mb in cat.modulos && mb.subcurso == Some(b.id) && x == ModuloInicial(estudiante, mb.id);
      MismaClave(cat.modulos, IdModulo, ma, mb);
      FiltrarMiembro(cat.subcursos, (s: Subcurso) => s.curso == curso, a);
      FiltrarMiembro(cat.subcursos, (s: Subcurso) => s.curso == curso, b);
      MismaClave(cat.subcursos, IdSubcurso, a, b);
    }
    AplanarSinRepetidos(ss, g);
  }

  /** Exactly the modules of sub-courses of contracted courses get an
      `EstudianteModulo` row, incomplete; with unique keys, one each. */
  lemma InscripcionModulos(cat: Catalogo, contratos: seq<Contrato>, e: Estudiante, codigo: string)
    ensures forall x :: x in InscripcionEsperada(cat, contratos, e, codigo).modulos <==>
      exists s, m :: s in cat.subcursos && s.curso in cat.cursos && Contratado(contratos, codigo, s.curso)
        && m in cat.modulos && m.subcurso == Some(s.id) && x == ModuloInicial(e.id, m.id)
    ensures CatalogoValido(cat) ==> SinRepetidos(InscripcionEsperada(cat, contratos, e, codigo).modulos)
  {
    var cursos := CursosContratados(cat, contratos, codigo);
    var f := (c: nat) => FilasModuloSubcursos(e.id, cat, SubcursosDe(cat, c));
    forall c ensures c in cursos <==> c in cat.cursos && Contratado(contratos, codigo, c) {
      CursosContratadosMiembro(cat, contratos, codigo, c);
    }
    forall x ensures x in Aplanar(cursos, f) <==>
      exists s, m :: s in cat.subcursos && s.curso in cat.cursos && Contratado(contratos, codigo, s.curso)
        && m in cat.modulos && m.subcurso == Some(s.id) && x == ModuloInicial(e.id, m.id)
    {
      AplanarMiembro(cursos, f, x);
      forall c ensures x in f(c) <==>
        exists s, m :: s in cat.subcursos && s.curso == c
          && m in cat.modulos && m.subcurso == Some(s.id) && x == ModuloInicial(e.id, m.id)
      {
        FilasModuloCursoMiembro(e.id, cat, c, x);
      }
    }
    if CatalogoValido(cat) {
      FiltrarSinRepetidos(cat.cursos, (c: nat) => Contratado(contratos, codigo, c));
      forall c | c in cursos ensures SinRepetidos(f(c)) {
        FilasModuloCursoSinRepetidos(e.id, cat, c);
      }
      forall a, b, x | a in cursos && b in cursos && x in f(a) && x in f(b) ensures a == b {
        FilasModuloCursoMiembro(e.id, cat, a, x);
        FilasModuloCursoMiembro(e.id, cat, b, x);
        var sa, ma :| sa in cat.subcursos && sa.curso == a && ma in cat.modulos && ma.subcurso == Some(sa.id)
          && x == ModuloInicial(e.id, ma.id);
        var sb, mb :| sb in cat.subcursos && sb.curso == b && mb in cat.modulos && mb.subcurso == Some(sb.id)
          && x == ModuloInicial(e.id, mb.id);
        MismaClave(cat.modulos, IdModulo, ma, mb);
        MismaClave(cat.subcursos, IdSubcurso, sa, sb);
      }
      AplanarSinRepetidos(cursos, f);
    }
  }

  // ---------------------------------------------------------------------------
  // The operations.

  /** `Estudiante.save`: stamps the student role, and refuses a code that no
      contract carries (whether or not that contract is still active). */
  function GuardarEstudiante(contratos: seq<Contrato>, e: Estudiante): (r: Result<Estudiante, string>)
    ensures r.Ok? <==> CodigoValido(contratos, e.codigoOrganizacion)
    ensures r.Ok? ==> r.value == e.(rol := RolEstudiante)
    ensures r.Err? ==> r.error == ErrorCodigoInstructor
  {
    if CodigoValido(contratos, e.codigoOrganizacion) then Ok(e.(rol := RolEstudiante)) else Err(ErrorCodigoInstructor)
  }

  /** The loop over a course's tests. */
  method AgregarFilasPrueba(pruebas: seq<EstudiantePruebaFila>, estudiante: nat, ps: seq<Prueba>)
    returns (r: seq<EstudiantePruebaFila>)
    ensures r == pruebas + FilasPrueba(estudiante, ps)
  {
    r := pruebas;
    var j := 0;
    while j < |ps|
      invariant 0 <= j <= |ps|
      invariant r == pruebas + FilasPrueba(estudiante, ps[..j])
    {
      assert ps[..j + 1][..j] == ps[..j];
      r := r + [PruebaInicial(estudiante, ps[j].id)];
      j := j + 1;
    }
    assert ps[..|ps|] == ps;
  }

  /** The loop over a sub-course's modules. */
  method AgregarFilasModulo(modulos: seq<EstudianteModuloFila>, estudiante: nat, ms: seq<Modulo>)
    returns (r: seq<EstudianteModuloFila>)
    ensures r == modulos + FilasModulo(estudiante, ms)
  {
    r := modulos;
    var k := 0;
    while k < |ms|
      invariant 0 <= k <= |ms|
      invariant r == modulos + FilasModulo(estudiante, ms[..k])
    {
      assert ms[..k + 1][..k] == ms[..k];
      r := r + [ModuloInicial(estudiante, ms[k].id)];
      k := k + 1;
    }
    assert ms[..|ms|] == ms;
  }

  /** The loop over a course's sub-courses, with the inner loop over each one's modules. */
  method AgregarFilasSubcurso(subcursos: seq<EstudianteSubcursoFila>, modulos: seq<EstudianteModuloFila>,
                              estudiante: nat, cat: Catalogo, ss: seq<Subcurso>)
    returns (rs: seq<EstudianteSubcursoFila>, rm: seq<EstudianteModuloFila>)
    ensures rs == subcursos + FilasSubcurso(estudiante, ss)
    ensures rm == modulos + FilasModuloSubcursos(estudiante, cat, ss)
  {
    rs, rm := subcursos, modulos;
    var j := 0;
    while j < |ss|
      invariant 0 <= j <= |ss|
      invariant rs == subcursos + FilasSubcurso(estudiante, ss[..j])
      invariant rm == modulos + FilasModuloSubcursos(estudiante, cat, ss[..j])
    {
      assert ss[..j + 1][..j] == ss[..j];
      rs := rs + [SubcursoInicial(estudiante, ss[j].id)];
      rm := AgregarFilasModulo(rm, estudiante, ModulosDe(cat, ss[j].id));
      j := j + 1;
    }
    assert ss[..|ss|] == ss;
  }

  /** `crear_estudiante_con_cursos`.  `correos` are the e-mail addresses already
      in use; a duplicate one makes the insert fail, and the whole registration
      is rolled back. */
  method CrearEstudianteConCursos(cat: Catalogo, contratos: seq<Contrato>, correos: set<string>,
                                  e: Estudiante, codigo: string) returns (r: Result<Inscripcion, string>)
    ensures !CodigoValido(contratos, codigo) ==> r == Err(ErrorCodigoContrato)
    ensures CodigoValido(contratos, codigo) && e.email in correos ==> r == Err(ErrorCreacion)
    ensures CodigoValido(contratos, codigo) && e.email !in correos ==>
      r == Ok(InscripcionEsperada(cat, contratos, e, codigo))
  {
    if !CodigoValido(contratos, codigo) {
      return Err(ErrorCodigoContrato);
    }
    if e.email in correos {
      return Err(ErrorCreacion);
    }
    var guardado := GuardarEstudiante(contratos, e.(codigoOrganizacion := codigo));
    var estudiante := guardado.value;

    var cursos := CursosContratados(cat, contratos, codigo);
    var progresos: seq<ProgresoFila> := [];
    var pruebas: seq<EstudiantePruebaFila> := [];
    var subcursos: seq<EstudianteSubcursoFila> := [];
    var modulos: seq<EstudianteModuloFila> := [];
    var i := 0;
    while i < |cursos|
      invariant 0 <= i <= |cursos|
      invariant progresos == FilasProgreso(e.id, cursos[..i])
      invariant pruebas == FilasPruebaCursos(e.id, cat, cursos[..i])
      invariant subcursos == FilasSubcursoCursos(e.id, cat, cursos[..i])
      invariant modulos == FilasModuloCursos(e.id, cat, cursos[..i])
    {
      var curso := cursos[i];
      assert cursos[..i + 1][..i] == cursos[..i];
      progresos := progresos + [ProgresoInicial(e.id, curso)];

      pruebas := AgregarFilasPrueba(pruebas, e.id, PruebasDe(cat, curso));
      subcursos, modulos := AgregarFilasSubcurso(subcursos, modulos, e.id, cat, SubcursosDe(cat, curso));
      i := i + 1;
    }
    assert cursos[..|cursos|] == cursos;
    r := Ok(Inscripcion(estudiante, progresos, pruebas, subcursos, modulos));
  }
}
