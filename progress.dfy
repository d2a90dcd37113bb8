/** The course-level progress of one student (`Progreso.calcular_porcentaje_completado`).
    Percentages are exact reals; `round(x, 2)` is `Round2`. */
module CourseProgress {
  import opened Base

  /** `round(x, 2)`: the multiple of 0.01 nearest to `x`, ties to the even hundredth. */
  function Round2(x: real): (r: real)
    ensures (r * 100.0).Floor as real == r * 100.0
    ensures x - 0.005 <= r <= x + 0.005
  {
    var y := x * 100.0;
    var n := y.Floor;
    var f := y - n as real;
    var k := if f > 0.5 then n + 1 else if f < 0.5 then n else if n % 2 == 0 then n else n + 1;
    assert (k as real / 100.0) * 100.0 == k as real;
    k as real / 100.0
  }

  /** Rounding keeps a value that is already a whole number of hundredths. */
  lemma Round2Centesimas(k: int)
    ensures Round2(k as real / 100.0) == k as real / 100.0
  {
    var y := (k as real / 100.0) * 100.0;
    assert y == k as real;
    assert y.Floor == k;
  }

  /** Rounding keeps a percentage within [0, 100]. */
  lemma Round2Rango(x: real)
    requires 0.0 <= x <= 100.0
    ensures 0.0 <= Round2(x) <= 100.0
  {
    var y := x * 100.0;
    var n := y.Floor;
    assert 0 <= n <= 10000;
    if n == 10000 {
      assert y == 10000.0;
    }
  }

  /** A value rounds to 99 or more exactly when it is at least 98.995: the
      tie 98.995 goes up, to the even hundredth 99.00. */
  lemma Round2Umbral(x: real)
    ensures Round2(x) >= 99.0 <==> x >= 98.995
  {
    var y := x * 100.0;
    var n := y.Floor;
    var f := y - n as real;
    var k := if f > 0.5 then n + 1 else if f < 0.5 then n else if n % 2 == 0 then n else n + 1;
    assert Round2(x) == k as real / 100.0;
    if x >= 98.995 {
      assert y >= 9899.5;
      assert n >= 9899;
      assert k >= 9900;
    } else {
      assert y < 9899.5;
      assert n <= 9899;
      assert k <= 9899;
    }
  }

  /** The ">= 99 counts as complete" tolerance rule. */
  function Normalizar(x: real): (r: real)
    ensures r == 100.0 || r < 99.0
    ensures x >= 99.0 <==> r == 100.0
    ensures x < 99.0 ==> r == x
  {
    if x >= 99.0 then 100.0 else x
  }

  /** The sum of the student's sub-course percentages over the course's
      sub-courses; a sub-course without a row for the student contributes 0. */
  function SumaAvance(subcursos: seq<nat>, filas: map<nat, real>): (r: real)
    ensures (forall s :: s in subcursos ==> s !in filas) ==> r == 0.0
  {
    if |subcursos| == 0 then 0.0
    else
      var last := |subcursos| - 1;
      SumaAvance(subcursos[..last], filas) + (if subcursos[last] in filas then filas[subcursos[last]] else 0.0)
  }

  /** The content percentage: the average over the sub-courses, divided by 1
      when the course has none. */
  function PorcentajeContenido(subcursos: seq<nat>, filas: map<nat, real>): (r: real)
    ensures |subcursos| == 0 ==> r == 0.0
    ensures |subcursos| > 0 ==> r * |subcursos| as real == SumaAvance(subcursos, filas)
  {
    SumaAvance(subcursos, filas) / (if |subcursos| == 0 then 1 else |subcursos|) as real
  }

  /** The weighted course percentage before rounding: 0.5/0.3/0.2 for content,
      simulation and test when the course has a simulation, 0.8/0.2 for content
      and test otherwise.  A null flag counts as false; `aprobado` is `None`
      when the student has no attempt for the course's test. */
  function Ponderado(simulacionCurso: Option<bool>, contenido: real,
                     simulacionCompletada: Option<bool>, aprobado: Option<bool>): (r: real)
    ensures 0.0 <= contenido <= 100.0 ==> 0.0 <= r <= 100.0
    ensures contenido <= 100.0 && !Truthy(aprobado) ==> r <= 80.0
    ensures contenido <= 100.0 && Truthy(simulacionCurso) && !Truthy(simulacionCompletada) ==> r <= 70.0
    ensures contenido == 100.0 && Truthy(aprobado) && (Truthy(simulacionCurso) ==> Truthy(simulacionCompletada)) ==> r == 100.0
  {
    var prueba := if Truthy(aprobado) then 100.0 else 0.0;
    if Truthy(simulacionCurso) then
      var simulacion := if Truthy(simulacionCompletada) then 100.0 else 0.0;
      contenido * 0.5 + simulacion * 0.3 + prueba * 0.2
    else
      contenido * 0.8 + prueba * 0.2
  }

  /** The stored course percentage: weighted, rounded, then normalised. */
  function PorcentajeCurso(simulacionCurso: Option<bool>, contenido: real,
                           simulacionCompletada: Option<bool>, aprobado: Option<bool>): (r: real)
    ensures r == 100.0 || r < 99.0
    ensures r == 100.0 <==> Ponderado(simulacionCurso, contenido, simulacionCompletada, aprobado) >= 98.995
  {
    Round2Umbral(Ponderado(simulacionCurso, contenido, simulacionCompletada, aprobado));
    Normalizar(Round2(Ponderado(simulacionCurso, contenido, simulacionCompletada, aprobado)))
  }

  /** Every existing sub-course row of the course holds a percentage. */
  ghost predicate FilasEnRango(subcursos: seq<nat>, filas: map<nat, real>)
  {
    forall s :: s in subcursos && s in filas ==> 0.0 <= filas[s] <= 100.0
  }

  /** Every sub-course of the course has a row for the student at 100 %. */
  ghost predicate TodosCompletos(subcursos: seq<nat>, filas: map<nat, real>)
  {
    forall s :: s in subcursos ==> s in filas && filas[s] == 100.0
  }

  /** With percentages in range the sum lies in [0, 100·n], and it reaches
      100·n exactly when every sub-course is at 100 %. */
  lemma {:induction false} SumaAvanceRango(subcursos: seq<nat>, filas: map<nat, real>)
    requires FilasEnRango(subcursos, filas)
    ensures 0.0 <= SumaAvance(subcursos, filas) <= 100.0 * |subcursos| as real
    ensures SumaAvance(subcursos, filas) == 100.0 * |subcursos| as real <==> TodosCompletos(subcursos, filas)
  {
    if |subcursos| > 0 {
      var last := |subcursos| - 1;
      var init := subcursos[..last];
      assert forall s :: s in init ==> s in subcursos;
      assert subcursos == init + [subcursos[last]];
      SumaAvanceRango(init, filas);
      assert TodosCompletos(subcursos, filas) <==>
        TodosCompletos(init, filas) && subcursos[last] in filas && filas[subcursos[last]] == 100.0;
    }
  }

  /** The content percentage is a percentage, and it is 100 exactly when the
      course has sub-courses and the student completed every one of them. */
  lemma ContenidoRango(subcursos: seq<nat>, filas: map<nat, real>)
    requires FilasEnRango(subcursos, filas)
    ensures 0.0 <= PorcentajeContenido(subcursos, filas) <= 100.0
    ensures PorcentajeContenido(subcursos, filas) == 100.0 <==> |subcursos| > 0 && TodosCompletos(subcursos, filas)
  {
    if |subcursos| > 0 {
      ContenidoPromedio(subcursos, filas);
    }
  }

  /** The case with sub-courses: the average of percentages in range. */
  lemma ContenidoPromedio(subcursos: seq<nat>, filas: map<nat, real>)
    requires |subcursos| > 0 && FilasEnRango(subcursos, filas)
    ensures 0.0 <= PorcentajeContenido(subcursos, filas) <= 100.0
    ensures PorcentajeContenido(subcursos, filas) == 100.0 <==> TodosCompletos(subcursos, filas)
  {
    SumaAvanceRango(subcursos, filas);
    Promedio(PorcentajeContenido(subcursos, filas), SumaAvance(subcursos, filas), |subcursos| as real);
  }

  /** What `c * n == suma` says about an average `c` of `n` percentages. */
  lemma Promedio(c: real, suma: real, n: real)
    requires n > 0.0 && c * n == suma
    requires 0.0 <= suma <= 100.0 * n
    ensures 0.0 <= c <= 100.0
    ensures c == 100.0 <==> suma == 100.0 * n
  {
    Cancelar(c, 0.0, n);
    Cancelar(100.0, c, n);
  }

  /** The stored course percentage stays in [0, 100] and is either exactly
      100 or below 99. */
  lemma PorcentajeCursoRango(simulacionCurso: Option<bool>, contenido: real,
                             simulacionCompletada: Option<bool>, aprobado: Option<bool>)
    requires 0.0 <= contenido <= 100.0
    ensures var p := PorcentajeCurso(simulacionCurso, contenido, simulacionCompletada, aprobado);
      0.0 <= p <= 100.0 && (p == 100.0 || p < 99.0)
  {
    Round2Rango(Ponderado(simulacionCurso, contenido, simulacionCompletada, aprobado));
  }

  /** A course is never completed without a passed test, and a course with a
      simulation is never completed without the simulation: the missing
      component caps the weighted value at 80. */
  lemma CompletarRequierePruebaYSimulacion(simulacionCurso: Option<bool>, contenido: real,
                                           simulacionCompletada: Option<bool>, aprobado: Option<bool>)
    requires 0.0 <= contenido <= 100.0
    requires PorcentajeCurso(simulacionCurso, contenido, simulacionCompletada, aprobado) == 100.0
    ensures Truthy(aprobado)
    ensures Truthy(simulacionCurso) ==> Truthy(simulacionCompletada)
  {
    var w := Ponderado(simulacionCurso, contenido, simulacionCompletada, aprobado);
    assert Round2(w) >= 99.0;
  }

  /** The tolerance rule lets a course complete with its content below 100 %:
      a simulation course with 98 % content, the simulation done and the test
      passed weighs 99 and is stored as 100, while its content is not complete. */
  lemma ToleranciaCompletaSinContenidoCompleto()
    ensures Ponderado(Some(true), 98.0, Some(true), Some(true)) == 99.0
    ensures PorcentajeCurso(Some(true), 98.0, Some(true), Some(true)) == 100.0
  {
    Round2Centesimas(9900);
  }

  /** Weights for a course with a simulation: two sub-courses at 100 %, the
      simulation done and the test passed give exactly 100. */
  lemma PesosConSimulacion()
    ensures PorcentajeContenido([1, 2], map[1 := 100.0, 2 := 100.0]) == 100.0
    ensures PorcentajeCurso(Some(true), 100.0, Some(true), Some(true)) == 100.0
  {
    assert [1, 2][..1] == [1];
    assert [1][..0] == [];
    Round2Centesimas(10000);
  }

  /** Weights for a course without a simulation: full content and no test
      attempt give 80, which is not complete; one sub-course at 50 % gives 40. */
  lemma PesosSinSimulacion()
    ensures PorcentajeCurso(Some(false), 100.0, None, None) == 80.0
    ensures PorcentajeCurso(None, 100.0, Some(false), Some(false)) == 80.0
    ensures PorcentajeContenido([7], map[7 := 50.0]) == 50.0
    ensures PorcentajeCurso(Some(false), 50.0, None, None) == 40.0
  {
    assert [7][..0] == [];
    Round2Centesimas(8000);
    Round2Centesimas(4000);
  }

  /** The student's progress row for one course; the fields are the ones the
      aggregator reads and writes. */
  class Progreso {
    var simulacionCompletada: Option<bool>
    var contenidoCompletado: Option<bool>
    var completado: bool
    var porcentajeCompletado: real

    /** A row created at enrollment time. */
    constructor (simulacionCompletada: Option<bool>)
      ensures this.simulacionCompletada == simulacionCompletada
      ensures contenidoCompletado == None && !completado && porcentajeCompletado == 0.0
    {
      this.simulacionCompletada := simulacionCompletada;
      contenidoCompletado, completado, porcentajeCompletado := None, false, 0.0;
    }

    /** Recomputes the course percentage from the course's sub-courses (`subcursos`,
        their ids), the student's sub-course rows (`filas`, sub-course id to
        percentage), the course's simulation flag and the student's test outcome.
        The new state depends on the inputs and the unchanged simulation flag
        only, so recomputing on unchanged inputs stores the same values. */
    method CalcularPorcentajeCompletado(simulacionCurso: Option<bool>, subcursos: seq<nat>,
                                        filas: map<nat, real>, aprobado: Option<bool>)
      modifies this
      ensures simulacionCompletada == old(simulacionCompletada)
      ensures porcentajeCompletado ==
        PorcentajeCurso(simulacionCurso, PorcentajeContenido(subcursos, filas), simulacionCompletada, aprobado)
      ensures contenidoCompletado == Some(PorcentajeContenido(subcursos, filas) == 100.0)
      ensures completado <==> porcentajeCompletado == 100.0
    {
      var total := if |subcursos| == 0 then 1 else |subcursos|;
      var avance := 0.0;
      var i := 0;
      while i < |subcursos|
        invariant 0 <= i <= |subcursos|
        invariant avance == SumaAvance(subcursos[..i], filas)
      {
        assert subcursos[..i + 1][..i] == subcursos[..i];
        if subcursos[i] in filas {
          avance := avance + filas[subcursos[i]];
        }
        i := i + 1;
      }
      assert subcursos[..|subcursos|] == subcursos;
      var contenido := avance / total as real;
      var simulacion := Truthy(simulacionCompletada);
      var esAprobado := Truthy(aprobado);
      var porcentaje: real;
      if Truthy(simulacionCurso) {
        var pSimulacion := if simulacion then 100.0 else 0.0;
        var pPrueba := if esAprobado then 100.0 else 0.0;
        porcentaje := contenido * 0.5 + pSimulacion * 0.3 + pPrueba * 0.2;
      } else {
        var pPrueba := if esAprobado then 100.0 else 0.0;
        porcentaje := contenido * 0.8 + pPrueba * 0.2;
      }
      assert contenido == PorcentajeContenido(subcursos, filas);
      assert porcentaje == Ponderado(simulacionCurso, contenido, simulacionCompletada, aprobado);
      porcentaje := Round2(porcentaje);
      if porcentaje >= 99.0 {
        porcentaje := 100.0;
      }
      porcentajeCompletado := porcentaje;
      contenidoCompletado := Some(contenido == 100.0);
      completado := porcentajeCompletado == 100.0;
    }
  }

  /** Recomputing twice on unchanged inputs stores the same percentage and
      flags as the first recomputation (returned as `porcentaje`, `contenido`
      and `completo`). */
  method RecalcularEsIdempotente(p: Progreso, simulacionCurso: Option<bool>, subcursos: seq<nat>,
                                 filas: map<nat, real>, aprobado: Option<bool>)
    returns (porcentaje: real, contenido: Option<bool>, completo: bool)
    modifies p
    ensures porcentaje ==
      PorcentajeCurso(simulacionCurso, PorcentajeContenido(subcursos, filas), old(p.simulacionCompletada), aprobado)
    ensures p.porcentajeCompletado == porcentaje
    ensures p.contenidoCompletado == contenido && p.completado == completo
  {
    p.CalcularPorcentajeCompletado(simulacionCurso, subcursos, filas, aprobado);
    porcentaje, contenido, completo := p.porcentajeCompletado, p.contenidoCompletado, p.completado;
    p.CalcularPorcentajeCompletado(simulacionCurso, subcursos, filas, aprobado);
  }
}
