/** Certificate issuance (`Certificado.emitir_certificado`): an ordered chain
    of guards, then the creation of one certificate row. */
module Certificates {
  import opened Base

  /** The part of a `Progreso` row the first guard reads. */
  datatype ProgresoEstado = ProgresoEstado(estudiante: nat, curso: nat, completado: bool)

  /** The certificate holder: the student's key and name fields. */
  datatype Titular = Titular(id: nat, firstName: string, lastName: string)

  /** The course; its title column is nullable. */
  datatype Curso = Curso(id: nat, titulo: Option<string>)

  /** The rendered PDF document, opaque to this model. */
  datatype Pdf = Pdf(contenido: seq<int>)

  /** A certificate row: one (student, course) pair and its document. */
  datatype Certificado = Certificado(estudiante: nat, curso: nat, archivoPdf: Pdf)

  /** What a call returns, in guard order; each has its own message. */
  datatype Emision =
    | NoCompletado
    | YaEmitido
    | DatosIncompletos
    | TituloNoDisponible
    | ErrorEmision
    | Emitido

  /** The message `emitir_certificado` returns for each outcome (an error
      message is followed by the exception text). */
  function Mensaje(e: Emision): (r: string)
    ensures |r| > 0
    ensures e == ErrorEmision ==> r[|r| - 1] == ' '
    ensures e != ErrorEmision ==> r[|r| - 1] == '.'
  {
    match e
    case NoCompletado => "El estudiante no ha completado el curso."
    case YaEmitido => "El certificado ya ha sido emitido."
    case DatosIncompletos => "Los datos del estudiante son incompletos."
    case TituloNoDisponible => "El título del curso no está disponible."
    case ErrorEmision => "Error al emitir el certificado: "
    case Emitido => "Certificado emitido exitosamente."
  }

  /** The returned string tells the outcomes apart: no two outcomes share a
      message, and the error message is a prefix of no other, so a caller
      comparing strings recovers the outcome. */
  lemma MensajeDistingue(e: Emision, f: Emision)
    ensures Mensaje(e) == Mensaje(f) <==> e == f
    ensures e != ErrorEmision ==> !(Mensaje(ErrorEmision) <= Mensaje(e))
  {
    MensajeQuinto(e);
    MensajeQuinto(f);
    MensajeSegundo(e);
  }

  /** The fifth character of a message names its outcome. */
  lemma MensajeQuinto(e: Emision)
    ensures Mensaje(e)[4] == 's' <==> e == NoCompletado
    ensures Mensaje(e)[4] == 'e' <==> e == YaEmitido
    ensures Mensaje(e)[4] == 'd' <==> e == DatosIncompletos
    ensures Mensaje(e)[4] == 'í' <==> e == TituloNoDisponible
    ensures Mensaje(e)[4] == 'r' <==> e == ErrorEmision
    ensures Mensaje(e)[4] == 'i' <==> e == Emitido
  {
  }

  /** Only the error message has 'r' as its second character. */
  lemma MensajeSegundo(e: Emision)
    ensures Mensaje(e)[1] == 'r' <==> e == ErrorEmision
  {
  }

  /** Some progress row of the pair is completed. */
  predicate HayProgresoCompletado(progresos: seq<ProgresoEstado>, estudiante: nat, curso: nat)
    ensures HayProgresoCompletado(progresos, estudiante, curso) <==> ProgresoEstado(estudiante, curso, true) in progresos
  {
    exists i :: 0 <= i < |progresos| && progresos[i].estudiante == estudiante
      && progresos[i].curso == curso && progresos[i].completado
  }

  /** A certificate row of the pair exists. */
  predicate TieneCertificado(certificados: seq<Certificado>, estudiante: nat, curso: nat)
    ensures TieneCertificado(certificados, estudiante, curso) ==> |certificados| > 0
    ensures TieneCertificado(certificados, estudiante, curso) <==>
      exists c :: c in certificados && c.estudiante == estudiante && c.curso == curso
  {
    exists i :: 0 <= i < |certificados| && certificados[i].estudiante == estudiante
      && certificados[i].curso == curso
  }

  /** Python truthiness of the nullable course title. */
  predicate TituloDisponible(titulo: Option<string>)
    ensures titulo == None ==> !TituloDisponible(titulo)
    ensures titulo == Some("") ==> !TituloDisponible(titulo)
    ensures titulo.Some? && |titulo.value| > 0 ==> TituloDisponible(titulo)
  {
    titulo.Some? && titulo.value != ""
  }

  /** The guard chain.  `pdf` is the rendered document, or `None` when
      rendering or storing it raised. */
  function Decidir(progresos: seq<ProgresoEstado>, certificados: seq<Certificado>,
                   estudiante: Titular, curso: Curso, pdf: Option<Pdf>): (r: Emision)
    ensures r == NoCompletado <==> !HayProgresoCompletado(progresos, estudiante.id, curso.id)
    ensures r == YaEmitido <==>
      HayProgresoCompletado(progresos, estudiante.id, curso.id) && TieneCertificado(certificados, estudiante.id, curso.id)
    ensures r == Emitido <==>
      && HayProgresoCompletado(progresos, estudiante.id, curso.id)
      && !TieneCertificado(certificados, estudiante.id, curso.id)
      && estudiante.firstName != "" && estudiante.lastName != ""
      && TituloDisponible(curso.titulo)
      && pdf.Some?
    ensures r == DatosIncompletos <==>
      && HayProgresoCompletado(progresos, estudiante.id, curso.id)
      && !TieneCertificado(certificados, estudiante.id, curso.id)
      && (estudiante.firstName == "" || estudiante.lastName == "")
    ensures r == TituloNoDisponible <==>
      && HayProgresoCompletado(progresos, estudiante.id, curso.id)
      && !TieneCertificado(certificados, estudiante.id, curso.id)
      && estudiante.firstName != "" && estudiante.lastName != ""
      && !TituloDisponible(curso.titulo)
    ensures r == ErrorEmision <==>
      && HayProgresoCompletado(progresos, estudiante.id, curso.id)
      && !TieneCertificado(certificados, estudiante.id, curso.id)
      && estudiante.firstName != "" && estudiante.lastName != ""
      && TituloDisponible(curso.titulo)
      && pdf.None?
  {
    if !HayProgresoCompletado(progresos, estudiante.id, curso.id) then NoCompletado
    else if TieneCertificado(certificados, estudiante.id, curso.id) then YaEmitido
    else if estudiante.firstName == "" || estudiante.lastName == "" then DatosIncompletos
    else if !TituloDisponible(curso.titulo) then TituloNoDisponible
    else if pdf.None? then ErrorEmision
    else Emitido
  }

  /** The certificate table after one call: existing rows are never changed
      or removed, and a row is added, for the pair and the rendered document,
      exactly when the call answers `Emitido`. */
  function Emitir(progresos: seq<ProgresoEstado>, certificados: seq<Certificado>,
                  estudiante: Titular, curso: Curso, pdf: Option<Pdf>): (r: seq<Certificado>)
    ensures |certificados| <= |r| && r[..|certificados|] == certificados
    ensures |r| > |certificados| <==> Decidir(progresos, certificados, estudiante, curso, pdf) == Emitido
    ensures |r| > |certificados| ==>
      |r| == |certificados| + 1 && pdf.Some? && r[|certificados|] == Certificado(estudiante.id, curso.id, pdf.value)
  {
    if Decidir(progresos, certificados, estudiante, curso, pdf) == Emitido
    then certificados + [Certificado(estudiante.id, curso.id, pdf.value)]
    else certificados
  }

  /** No two certificate rows share a (student, course) pair. */
  predicate Unicos(certificados: seq<Certificado>)
  {
    forall i, j :: 0 <= i < j < |certificados| ==>
      certificados[i].estudiante != certificados[j].estudiante || certificados[i].curso != certificados[j].curso
  }

  /** The number of certificate rows of a pair. */
  function Cuenta(certificados: seq<Certificado>, estudiante: nat, curso: nat): nat
  {
    if |certificados| == 0 then 0
    else
      var last := |certificados| - 1;
      Cuenta(certificados[..last], estudiante, curso)
        + (if certificados[last].estudiante == estudiante && certificados[last].curso == curso then 1 else 0)
  }

  /** A pair has a certificate exactly when it has a row counted for it. */
  lemma {:induction false} CuentaPositiva(certificados: seq<Certificado>, estudiante: nat, curso: nat)
    ensures Cuenta(certificados, estudiante, curso) > 0 <==> TieneCertificado(certificados, estudiante, curso)
  {
    if |certificados| > 0 {
      var last := |certificados| - 1;
      CuentaPositiva(certificados[..last], estudiante, curso);
      if TieneCertificado(certificados[..last], estudiante, curso) {
        var i :| 0 <= i < last && certificados[..last][i].estudiante == estudiante && certificados[..last][i].curso == curso;
        assert certificados[i] == certificados[..last][i];
      }
      if TieneCertificado(certificados, estudiante, curso) {
        var i :| 0 <= i < |certificados| && certificados[i].estudiante == estudiante && certificados[i].curso == curso;
        if i < last {
          assert certificados[..last][i] == certificados[i];
        }
      }
    }
  }

  /** With unique rows every pair has at most one certificate. */
  lemma {:induction false} UnicosCuentaUno(certificados: seq<Certificado>, estudiante: nat, curso: nat)
    requires Unicos(certificados)
    ensures Cuenta(certificados, estudiante, curso) <= 1
  {
    if |certificados| > 0 {
      var last := |certificados| - 1;
      var init := certificados[..last];
      assert Unicos(init);
      UnicosCuentaUno(init, estudiante, curso);
      if certificados[last].estudiante == estudiante && certificados[last].curso == curso {
        CuentaPositiva(init, estudiante, curso);
      }
    }
  }

  /** One call keeps the rows unique, creates a row only for a completed pair,
      and creates at most one row. */
  lemma EmitirPreservaUnicos(progresos: seq<ProgresoEstado>, certificados: seq<Certificado>,
                             estudiante: Titular, curso: Curso, pdf: Option<Pdf>)
    requires Unicos(certificados)
    ensures Unicos(Emitir(progresos, certificados, estudiante, curso, pdf))
    ensures |Emitir(progresos, certificados, estudiante, curso, pdf)| <= |certificados| + 1
    ensures |Emitir(progresos, certificados, estudiante, curso, pdf)| > |certificados| ==>
      HayProgresoCompletado(progresos, estudiante.id, curso.id)
  {
    if Decidir(progresos, certificados, estudiante, curso, pdf) == Emitido {
      var nuevas := Emitir(progresos, certificados, estudiante, curso, pdf);
      forall i, j | 0 <= i < j < |nuevas|
        ensures nuevas[i].estudiante != nuevas[j].estudiante || nuevas[i].curso != nuevas[j].curso
      {
        if j == |certificados| {
          assert nuevas[i] == certificados[i];
        }
      }
    }
  }

  /** Once a call has issued the certificate, the next call on the pair
      answers "already issued" whatever it would render. */
  lemma SegundaEmisionYaEmitida(progresos: seq<ProgresoEstado>, certificados: seq<Certificado>,
                                estudiante: Titular, curso: Curso, pdf: Option<Pdf>, otroPdf: Option<Pdf>)
    requires Decidir(progresos, certificados, estudiante, curso, pdf) == Emitido
    ensures Decidir(progresos, Emitir(progresos, certificados, estudiante, curso, pdf), estudiante, curso, otroPdf) == YaEmitido
  {
    var nuevas := Emitir(progresos, certificados, estudiante, curso, pdf);
    assert nuevas[|certificados|].estudiante == estudiante.id && nuevas[|certificados|].curso == curso.id;
  }

  /** The certificate table after a series of calls on one pair. */
  function EmitirVarias(progresos: seq<ProgresoEstado>, certificados: seq<Certificado>,
                        estudiante: Titular, curso: Curso, pdfs: seq<Option<Pdf>>): seq<Certificado>
    decreases |pdfs|
  {
    if |pdfs| == 0 then certificados
    else EmitirVarias(progresos, Emitir(progresos, certificados, estudiante, curso, pdfs[0]), estudiante, curso, pdfs[1..])
  }

  /** However many times it is called, issuance never yields a second
      certificate for any pair, and a pair without completed progress never
      gains one. */
  lemma {:induction false} EmisionesRepetidas(progresos: seq<ProgresoEstado>, certificados: seq<Certificado>,
                                              estudiante: Titular, curso: Curso, pdfs: seq<Option<Pdf>>)
    requires Unicos(certificados)
    ensures Unicos(EmitirVarias(progresos, certificados, estudiante, curso, pdfs))
    ensures forall e, c :: Cuenta(EmitirVarias(progresos, certificados, estudiante, curso, pdfs), e, c) <= 1
    ensures !HayProgresoCompletado(progresos, estudiante.id, curso.id) ==>
      EmitirVarias(progresos, certificados, estudiante, curso, pdfs) == certificados
    decreases |pdfs|
  {
    if |pdfs| == 0 {
      forall e, c ensures Cuenta(certificados, e, c) <= 1 { UnicosCuentaUno(certificados, e, c); }
    } else {
      EmitirPreservaUnicos(progresos, certificados, estudiante, curso, pdfs[0]);
      EmisionesRepetidas(progresos, Emitir(progresos, certificados, estudiante, curso, pdfs[0]), estudiante, curso, pdfs[1..]);
    }
  }

  /** The certificate table. */
  class TablaCertificados {
    var filas: seq<Certificado>

    ghost predicate Valid()
      reads this
    {
      Unicos(filas)
    }

    constructor ()
      ensures Valid() && filas == []
    {
      filas := [];
    }

    /** Runs the guard chain and, when every guard passes and the document was
        rendered, inserts the one new row. */
    method EmitirCertificado(progresos: seq<ProgresoEstado>, estudiante: Titular, curso: Curso, pdf: Option<Pdf>)
      returns (r: Emision)
      requires Valid()
      modifies this
      ensures Valid()
      ensures r == Decidir(progresos, old(filas), estudiante, curso, pdf)
      ensures filas == Emitir(progresos, old(filas), estudiante, curso, pdf)
      ensures r == Emitido ==> filas == old(filas) + [Certificado(estudiante.id, curso.id, pdf.value)]
      ensures r != Emitido ==> filas == old(filas)
    {
      if !HayProgresoCompletado(progresos, estudiante.id, curso.id) {
        return NoCompletado;
      }
      if TieneCertificado(filas, estudiante.id, curso.id) {
        return YaEmitido;
      }
      if estudiante.firstName == "" || estudiante.lastName == "" {
        return DatosIncompletos;
      }
      if !TituloDisponible(curso.titulo) {
        return TituloNoDisponible;
      }
      if pdf.None? {
        return ErrorEmision;
      }
      EmitirPreservaUnicos(progresos, filas, estudiante, curso, pdf);
      filas := filas + [Certificado(estudiante.id, curso.id, pdf.value)];
      r := Emitido;
    }
  }
}
