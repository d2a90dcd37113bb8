/** Training contracts (`Contrato`): date validation (`clean`), the
    organisation-code policy of `save`, and the contract table with its
    "one active contract per instructor and course" constraint. */
module Contracts {
  import opened Base

  /** A contract row.  Dates are day numbers, so `<` is calendar order. */
  datatype Contrato = Contrato(
    instructor: nat,
    curso: nat,
    codigoOrganizacion: string,
    fechaInicioCapacitacion: int,
    fechaFinCapacitacion: int,
    activo: bool)

  const ErrorFechas: string := "La fecha de inicio de la capacitación no puede ser posterior a la fecha de fin."

  /** The error raised when an insert breaks `unique_instructor_curso_activo`. */
  const ErrorActivoDuplicado: string := "unique_instructor_curso_activo"

  /** `clean`: the training cannot start after it ends. */
  function Clean(c: Contrato): (r: Outcome<string>)
    ensures r == Pass <==> c.fechaInicioCapacitacion <= c.fechaFinCapacitacion
    ensures r != Pass ==> r == Fail(ErrorFechas)
  {
    if c.fechaInicioCapacitacion > c.fechaFinCapacitacion then Fail(ErrorFechas) else Pass
  }

  /** A character of the random suffix: an ASCII capital or a digit. */
  predicate EnAlfabeto(ch: char)
  {
    'A' <= ch <= 'Z' || '0' <= ch <= '9'
  }

  /** A possible outcome of drawing the 5-character random suffix. */
  predicate SufijoValido(sufijo: string)
  {
    |sufijo| == 5 && forall i :: 0 <= i < 5 ==> EnAlfabeto(sufijo[i])
  }

  /** The company name's first three characters (all of it when shorter), upper-cased. */
  function Prefijo(nombreEmpresa: string): (r: string)
    ensures |r| == if |nombreEmpresa| < 3 then |nombreEmpresa| else 3
    ensures forall i :: 0 <= i < |r| ==> r[i] == UpperChar(nombreEmpresa[i]) && !IsAsciiLower(r[i])
  {
    Upper(nombreEmpresa[..if |nombreEmpresa| < 3 then |nombreEmpresa| else 3])
  }

  /** A generated code: prefix, a dash, the suffix. */
  function CodigoGenerado(nombreEmpresa: string, sufijo: string): (r: string)
    requires SufijoValido(sufijo)
    ensures |r| == |Prefijo(nombreEmpresa)| + 6
    ensures r[..|Prefijo(nombreEmpresa)|] == Prefijo(nombreEmpresa)
    ensures r[|Prefijo(nombreEmpresa)|] == '-'
    ensures forall i :: |Prefijo(nombreEmpresa)| < i < |r| ==> EnAlfabeto(r[i])
  {
    Prefijo(nombreEmpresa) + "-" + sufijo
  }

  /** The code `save` stores.  `forzado` is the code set by `set_force_codigo`
      (`None` when never set); an empty forced code is ignored, like any falsy
      value.  `sufijo` is the random draw, used only when a code is generated. */
  function CodigoAlGuardar(forzado: Option<string>, actual: string, nombreEmpresa: string, sufijo: string): (r: string)
    requires SufijoValido(sufijo)
    ensures r != ""
    ensures forzado.Some? && forzado.value != "" ==> r == forzado.value
    ensures (forzado.None? || forzado.value == "") && actual != "" ==> r == actual
    ensures (forzado.None? || forzado.value == "") && actual == "" ==> r == CodigoGenerado(nombreEmpresa, sufijo)
  {
    if forzado.Some? && forzado.value != "" then forzado.value
    else if actual != "" then actual
    else CodigoGenerado(nombreEmpresa, sufijo)
  }

  /** Saving again without a forced code never changes a stored code, whatever
      the random draw: only an empty code is ever replaced. */
  lemma CodigoEstable(forzado: Option<string>, actual: string, nombreEmpresa: string, sufijo: string, otroSufijo: string)
    requires SufijoValido(sufijo) && SufijoValido(otroSufijo)
    ensures var codigo := CodigoAlGuardar(forzado, actual, nombreEmpresa, sufijo);
      CodigoAlGuardar(None, codigo, nombreEmpresa, otroSufijo) == codigo
  {
  }

  /** `Contrato.save` applied to a row: the same row with its stored code. */
  function Guardado(c: Contrato, forzado: Option<string>, nombreEmpresa: string, sufijo: string): (r: Contrato)
    requires SufijoValido(sufijo)
    ensures r.codigoOrganizacion != ""
    ensures r.(codigoOrganizacion := c.codigoOrganizacion) == c
  {
    c.(codigoOrganizacion := CodigoAlGuardar(forzado, c.codigoOrganizacion, nombreEmpresa, sufijo))
  }

  /** Two rows are active contracts of the same instructor and course. */
  predicate ChocanActivos(a: Contrato, b: Contrato)
    ensures ChocanActivos(a, b) ==> a.activo && b.activo
    ensures a.instructor != b.instructor || a.curso != b.curso ==> !ChocanActivos(a, b)
  {
    a.activo && b.activo && a.instructor == b.instructor && a.curso == b.curso
  }

  /** Some row of the table is an active contract clashing with `c`.  An
      inactive contract never clashes, and neither does anything with an
      empty table. */
  predicate ChocaCon(filas: seq<Contrato>, c: Contrato)
    ensures ChocaCon(filas, c) ==> c.activo && |filas| > 0
    ensures ChocaCon(filas, c) <==> exists d :: d in filas && ChocanActivos(d, c)
  {
    exists i :: 0 <= i < |filas| && ChocanActivos(filas[i], c)
  }

  /** The table invariant: every stored code is non-empty (every row went
      through `save`), and at most one active contract per instructor and course. */
  ghost predicate TablaValida(filas: seq<Contrato>)
  {
    && (forall i :: 0 <= i < |filas| ==> filas[i].codigoOrganizacion != "")
    && (forall i, j :: 0 <= i < j < |filas| ==> !ChocanActivos(filas[i], filas[j]))
  }

  /** The contract table. */
  class TablaContratos {
    var filas: seq<Contrato>

    ghost predicate Valid()
      reads this
    {
      TablaValida(filas)
    }

    constructor ()
      ensures Valid() && filas == []
    {
      filas := [];
    }

    /** `save` of a new contract: the code policy, then the insert, which the
        database refuses when it would make a second active contract of the
        same instructor and course.  `clean` is not part of `save`. */
    method Guardar(c: Contrato, forzado: Option<string>, nombreEmpresa: string, sufijo: string)
      returns (r: Outcome<string>)
      requires Valid()
      requires SufijoValido(sufijo)
      modifies this
      ensures Valid()
      ensures r == Pass <==> !ChocaCon(old(filas), c)
      ensures r == Pass ==> filas == old(filas) + [Guardado(c, forzado, nombreEmpresa, sufijo)]
      ensures r != Pass ==> r == Fail(ErrorActivoDuplicado) && filas == old(filas)
    {
      var g := Guardado(c, forzado, nombreEmpresa, sufijo);
      if ChocaCon(filas, c) {
        return Fail(ErrorActivoDuplicado);
      }
      filas := filas + [g];
      r := Pass;
    }
  }
}
