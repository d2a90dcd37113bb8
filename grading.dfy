/** Grading of a student's test attempt (`EstudiantePrueba.calificar`). */
module Grading {
  import opened Base

  /** A question of a test: its primary key and its answer key (`respuestaCorrecta`). */
  datatype Pregunta = Pregunta(id: nat, respuestaCorrecta: string)

  /** The error raised when the test has no questions. */
  const SinPreguntas: string := "No hay preguntas asociadas a la prueba."

  /** The pass mark, in percent. */
  const NotaMinima: real := 60.0

  /** The answer submitted for question `id`; a question left unanswered counts as "". */
  function Respuesta(respuestas: map<nat, string>, id: nat): (r: string)
    ensures id in respuestas ==> r == respuestas[id]
    ensures id !in respuestas ==> r == ""
  {
    if id in respuestas then respuestas[id] else ""
  }

  /** A question is answered correctly when the submitted answer equals the
      answer key, ignoring the case of letters. */
  predicate Acierta(p: Pregunta, respuestas: map<nat, string>)
    ensures Respuesta(respuestas, p.id) == p.respuestaCorrecta ==> Acierta(p, respuestas)
    ensures Acierta(p, respuestas) ==> |Respuesta(respuestas, p.id)| == |p.respuestaCorrecta|
    ensures Acierta(p, respuestas) && p.respuestaCorrecta == "" ==> Respuesta(respuestas, p.id) == ""
  {
    Lower(p.respuestaCorrecta) == Lower(Respuesta(respuestas, p.id))
  }

  /** The number of correctly answered questions among `preguntas`. */
  function Aciertos(preguntas: seq<Pregunta>, respuestas: map<nat, string>): (n: nat)
    ensures n <= |preguntas|
  {
    if |preguntas| == 0 then 0
    else
      var last := |preguntas| - 1;
      Aciertos(preguntas[..last], respuestas) + (if Acierta(preguntas[last], respuestas) then 1 else 0)
  }

  /** The score of `aciertos` correct answers out of `total` questions, in percent. */
  function Calificacion(aciertos: nat, total: nat): (r: real)
    requires 0 < total && aciertos <= total
    ensures r * total as real == 100.0 * aciertos as real
  {
    (aciertos as real / total as real) * 100.0
  }

  /** The score is a percentage, it is 100 exactly when every answer is right
      and 0 exactly when none is, and it reaches the pass mark exactly when
      100 * aciertos >= 60 * total. */
  lemma CalificacionRango(aciertos: nat, total: nat)
    requires 0 < total && aciertos <= total
    ensures 0.0 <= Calificacion(aciertos, total) <= 100.0
    ensures Calificacion(aciertos, total) == 100.0 <==> aciertos == total
    ensures Calificacion(aciertos, total) == 0.0 <==> aciertos == 0
    ensures Calificacion(aciertos, total) >= NotaMinima <==> 100 * aciertos >= 60 * total
  {
    Porcentaje(Calificacion(aciertos, total), aciertos, total);
  }

  /** What the scaling fact `r * total == 100 * aciertos` alone says about `r`. */
  lemma Porcentaje(r: real, aciertos: nat, total: nat)
    requires 0 < total && aciertos <= total
    requires r * total as real == 100.0 * aciertos as real
    ensures 0.0 <= r <= 100.0
    ensures r == 100.0 <==> aciertos == total
    ensures r == 0.0 <==> aciertos == 0
    ensures r >= NotaMinima <==> 100 * aciertos >= 60 * total
  {
    var t := total as real;
    Cancelar(r, 0.0, t);
    Cancelar(r, 100.0, t);
    Cancelar(r, NotaMinima, t);
    var a := aciertos as real;
    assert 0.0 * t == 0.0 && 100.0 * t == 100.0 * t && NotaMinima * t == 60.0 * t;
    assert r == 0.0 <==> 100.0 * a == 0.0;
    assert r == 100.0 <==> 100.0 * a == 100.0 * t;
    assert r >= NotaMinima <==> 100.0 * a >= 60.0 * t;
  }

  /** Every question is right exactly when the count reaches the number of questions. */
  lemma {:induction false} AciertosTodos(preguntas: seq<Pregunta>, respuestas: map<nat, string>)
    ensures Aciertos(preguntas, respuestas) == |preguntas| <==>
      forall i :: 0 <= i < |preguntas| ==> Acierta(preguntas[i], respuestas)
  {
    if |preguntas| > 0 {
      var last := |preguntas| - 1;
      AciertosTodos(preguntas[..last], respuestas);
      assert forall i :: 0 <= i < last ==> preguntas[..last][i] == preguntas[i];
    }
  }

  /** No question is right exactly when the count is zero. */
  lemma {:induction false} AciertosNinguno(preguntas: seq<Pregunta>, respuestas: map<nat, string>)
    ensures Aciertos(preguntas, respuestas) == 0 <==>
      forall i :: 0 <= i < |preguntas| ==> !Acierta(preguntas[i], respuestas)
  {
    if |preguntas| > 0 {
      var last := |preguntas| - 1;
      AciertosNinguno(preguntas[..last], respuestas);
      assert forall i :: 0 <= i < last ==> preguntas[..last][i] == preguntas[i];
    }
  }

  /** The score of a graded attempt is 100 exactly when every question is
      answered right, and 0 exactly when none is. */
  lemma CalificacionExtremos(preguntas: seq<Pregunta>, respuestas: map<nat, string>)
    requires |preguntas| > 0
    ensures Calificacion(Aciertos(preguntas, respuestas), |preguntas|) == 100.0 <==>
      forall i :: 0 <= i < |preguntas| ==> Acierta(preguntas[i], respuestas)
    ensures Calificacion(Aciertos(preguntas, respuestas), |preguntas|) == 0.0 <==>
      forall i :: 0 <= i < |preguntas| ==> !Acierta(preguntas[i], respuestas)
  {
    CalificacionRango(Aciertos(preguntas, respuestas), |preguntas|);
    AciertosTodos(preguntas, respuestas);
    AciertosNinguno(preguntas, respuestas);
  }

  /** A test attempt row; the fields are the ones `calificar` updates. */
  class EstudiantePrueba {
    var estaAprobado: bool
    var calificacion: real
    var intento: int

    /** A fresh row carries the column defaults. */
    constructor ()
      ensures !estaAprobado && calificacion == 0.0 && intento == 0
    {
      estaAprobado, calificacion, intento := false, 0.0, 0;
    }

    /** Grades the submitted answers against the test's questions.  A test
        without questions is an error and leaves the row as it was. */
    method Calificar(preguntas: seq<Pregunta>, respuestas: map<nat, string>) returns (r: Outcome<string>)
      modifies this
      ensures |preguntas| == 0 ==> r == Fail(SinPreguntas) && unchanged(this)
      ensures |preguntas| > 0 ==> r == Pass
      ensures |preguntas| > 0 ==>
        && calificacion == Calificacion(Aciertos(preguntas, respuestas), |preguntas|)
        && (estaAprobado <==> calificacion >= NotaMinima)
        && intento == old(intento) + 1
    {
      if |preguntas| == 0 {
        return Fail(SinPreguntas);
      }
      var correctas := 0;
      var i := 0;
      while i < |preguntas|
        invariant 0 <= i <= |preguntas|
        invariant correctas == Aciertos(preguntas[..i], respuestas)
      {
        assert preguntas[..i + 1][..i] == preguntas[..i];
        if Lower(preguntas[i].respuestaCorrecta) == Lower(Respuesta(respuestas, preguntas[i].id)) {
          correctas := correctas + 1;
        }
        i := i + 1;
      }
      assert preguntas[..|preguntas|] == preguntas;
      calificacion := (correctas as real / |preguntas| as real) * 100.0;
      estaAprobado := calificacion >= NotaMinima;
      intento := intento + 1;
      r := Pass;
    }
  }

  /** Answers that differ only in the case of their letters earn the same count. */
  lemma {:induction false} AciertosIgnoraMayusculas(preguntas: seq<Pregunta>, a: map<nat, string>, b: map<nat, string>)
    requires forall p :: p in preguntas ==> Lower(Respuesta(a, p.id)) == Lower(Respuesta(b, p.id))
    ensures Aciertos(preguntas, a) == Aciertos(preguntas, b)
  {
    if |preguntas| > 0 {
      var last := |preguntas| - 1;
      assert forall p :: p in preguntas[..last] ==> p in preguntas;
      AciertosIgnoraMayusculas(preguntas[..last], a, b);
      assert preguntas[last] in preguntas;
    }
  }

  /** Submitting every answer key (in any case) earns every question. */
  lemma {:induction false} AciertosTodoCorrecto(preguntas: seq<Pregunta>, respuestas: map<nat, string>)
    requires forall p :: p in preguntas ==> p.id in respuestas && Lower(respuestas[p.id]) == Lower(p.respuestaCorrecta)
    ensures Aciertos(preguntas, respuestas) == |preguntas|
  {
    if |preguntas| > 0 {
      var last := |preguntas| - 1;
      assert forall p :: p in preguntas[..last] ==> p in preguntas;
      AciertosTodoCorrecto(preguntas[..last], respuestas);
      assert preguntas[last] in preguntas;
    }
  }

  /** An unanswered question is counted correct only when its answer key is empty. */
  lemma SinRespuestaSoloClaveVacia(p: Pregunta, respuestas: map<nat, string>)
    requires p.id !in respuestas
    ensures Acierta(p, respuestas) <==> p.respuestaCorrecta == ""
  {
    assert |Lower(p.respuestaCorrecta)| == |p.respuestaCorrecta|;
  }

  /** The pass mark is inclusive: 3 right answers out of 5 score exactly 60 and pass,
      2 out of 4 score 50 and fail. */
  lemma UmbralInclusivo()
    ensures Calificacion(3, 5) == 60.0 && Calificacion(3, 5) >= NotaMinima
    ensures Calificacion(2, 4) == 50.0 && Calificacion(2, 4) < NotaMinima
  {
    CalificacionRango(3, 5);
    CalificacionRango(2, 4);
  }
}
