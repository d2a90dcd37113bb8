/** The `inactivar_contratos` management command: deactivates every active
    contract whose training ended before today. */
module ContractSweep {
  import opened Base
  import opened Contracts

  /** The command selects active contracts whose end date is before `hoy`. */
  predicate Vencido(c: Contrato, hoy: int)
    ensures !c.activo ==> !Vencido(c, hoy)
    ensures c.fechaFinCapacitacion >= hoy ==> !Vencido(c, hoy)
  {
    c.activo && c.fechaFinCapacitacion < hoy
  }

  /** One contract after the sweep: no longer selected, never reactivated,
      and changed in `activo` alone, and only when it was selected. */
  function Inactivado(c: Contrato, hoy: int): (r: Contrato)
    ensures !Vencido(r, hoy)
    ensures r.activo ==> c.activo
    ensures r.(activo := c.activo) == c
    ensures !Vencido(c, hoy) ==> r == c
  {
    if Vencido(c, hoy) then c.(activo := false) else c
  }

  /** The table after the sweep, row by row: as many rows, none of them
      selected any more. */
  function Barrido(filas: seq<Contrato>, hoy: int): (r: seq<Contrato>)
    ensures |r| == |filas|
    ensures forall i :: 0 <= i < |r| ==> !Vencido(r[i], hoy)
  {
    if |filas| == 0 then []
    else
      var last := |filas| - 1;
      Barrido(filas[..last], hoy) + [Inactivado(filas[last], hoy)]
  }

  /** The number of contracts the sweep selects: at most every row, and
      every row when all of them are selected. */
  function Seleccionados(filas: seq<Contrato>, hoy: int): (r: nat)
    ensures r <= |filas|
    ensures (forall i :: 0 <= i < |filas| ==> Vencido(filas[i], hoy)) ==> r == |filas|
  {
    if |filas| == 0 then 0
    else
      var last := |filas| - 1;
      Seleccionados(filas[..last], hoy) + (if Vencido(filas[last], hoy) then 1 else 0)
  }

  /** The sweep keeps the table's rows in place and treats each on its own. */
  lemma {:induction false} BarridoPorFila(filas: seq<Contrato>, hoy: int)
    ensures |Barrido(filas, hoy)| == |filas|
    ensures forall i :: 0 <= i < |filas| ==> Barrido(filas, hoy)[i] == Inactivado(filas[i], hoy)
  {
    if |filas| > 0 {
      var last := |filas| - 1;
      BarridoPorFila(filas[..last], hoy);
    }
  }

  /** After the sweep no contract is both active and expired; a contract that
      was not selected (inactive, or ending today or later) is untouched; a
      selected one changes only from active to inactive. */
  lemma BarridoEfecto(filas: seq<Contrato>, hoy: int)
    ensures |Barrido(filas, hoy)| == |filas|
    ensures forall i :: 0 <= i < |filas| ==> !Vencido(Barrido(filas, hoy)[i], hoy)
    ensures forall i :: 0 <= i < |filas| && !Vencido(filas[i], hoy) ==> Barrido(filas, hoy)[i] == filas[i]
    ensures forall i :: 0 <= i < |filas| && Vencido(filas[i], hoy) ==>
      !Barrido(filas, hoy)[i].activo && Barrido(filas, hoy)[i].(activo := true) == filas[i]
    ensures forall i :: 0 <= i < |filas| && Barrido(filas, hoy)[i].activo ==> filas[i].activo
  {
    BarridoPorFila(filas, hoy);
  }

  /** A second sweep on the same day changes nothing and selects nothing. */
  lemma BarridoIdempotente(filas: seq<Contrato>, hoy: int)
    ensures Barrido(Barrido(filas, hoy), hoy) == Barrido(filas, hoy)
    ensures Seleccionados(Barrido(filas, hoy), hoy) == 0
  {
    var una := Barrido(filas, hoy);
    BarridoPorFila(filas, hoy);
    BarridoPorFila(una, hoy);
    SinSeleccionados(una, hoy);
  }

  /** A table with no expired active contract has nothing to select. */
  lemma {:induction false} SinSeleccionados(filas: seq<Contrato>, hoy: int)
    requires forall i :: 0 <= i < |filas| ==> !Vencido(filas[i], hoy)
    ensures Seleccionados(filas, hoy) == 0
  {
    if |filas| > 0 {
      var last := |filas| - 1;
      SinSeleccionados(filas[..last], hoy);
    }
  }

  /** The sweep keeps the table invariant: codes stay as they were, and
      deactivating contracts cannot create a clash of active contracts. */
  lemma BarridoPreservaValidez(filas: seq<Contrato>, hoy: int)
    requires TablaValida(filas)
    ensures TablaValida(Barrido(filas, hoy))
  {
    BarridoPorFila(filas, hoy);
  }

  /** One step of the sweep: treating row `i` extends the swept prefix by one. */
  lemma BarridoPaso(antes: seq<Contrato>, i: nat, hoy: int)
    requires i < |antes|
    ensures var filas := Barrido(antes[..i], hoy) + antes[i..];
      && |filas| == |antes| && filas[i] == antes[i]
      && Barrido(antes[..i + 1], hoy) + antes[i + 1..] == filas[i := Inactivado(antes[i], hoy)]
      && Seleccionados(antes[..i + 1], hoy) == Seleccionados(antes[..i], hoy) + (if Vencido(antes[i], hoy) then 1 else 0)
      && (!Vencido(antes[i], hoy) ==> filas[i := Inactivado(antes[i], hoy)] == filas)
  {
    assert antes[..i + 1][..i] == antes[..i];
    var prefijo := Barrido(antes[..i], hoy);
    var filas := prefijo + antes[i..];
    var siguiente := Barrido(antes[..i + 1], hoy) + antes[i + 1..];
    assert Barrido(antes[..i + 1], hoy) == prefijo + [Inactivado(antes[i], hoy)];
    assert |siguiente| == |filas|;
    forall k | 0 <= k < |filas|
      ensures siguiente[k] == filas[i := Inactivado(antes[i], hoy)][k]
    {
      if k < i {
        assert siguiente[k] == prefijo[k] == filas[k];
      } else if k > i {
        assert siguiente[k] == antes[k] == filas[k];
      }
    }
  }

  /** The loop of `Command.handle` over the selected contracts: each one is
      saved deactivated and counted. */
  method BarrerFilas(antes: seq<Contrato>, hoy: int) returns (filas: seq<Contrato>, total: nat)
    ensures filas == Barrido(antes, hoy)
    ensures total == Seleccionados(antes, hoy)
  {
    filas := antes;
    total := 0;
    var i := 0;
    while i < |antes|
      invariant 0 <= i <= |antes|
      invariant filas == Barrido(antes[..i], hoy) + antes[i..]
      invariant total == Seleccionados(antes[..i], hoy)
    {
      var siguientes, siguiente := filas, total;
      BarridoPaso(antes, i, hoy);
      var contrato := filas[i];
      if contrato.activo && contrato.fechaFinCapacitacion < hoy {
        siguientes := filas[i := contrato.(activo := false)];
        siguiente := total + 1;
      }
      BarridoSigue(antes, i, hoy, filas, total, siguientes, siguiente);
      filas, total := siguientes, siguiente;
      i := i + 1;
    }
    assert antes[..|antes|] == antes;
  }

  /** The loop step of `BarrerFilas` keeps its invariant. */
  lemma BarridoSigue(antes: seq<Contrato>, i: nat, hoy: int, filas: seq<Contrato>, total: nat,
                     siguientes: seq<Contrato>, siguiente: nat)
    requires i < |antes|
    requires filas == Barrido(antes[..i], hoy) + antes[i..]
    requires total == Seleccionados(antes[..i], hoy)
    requires Vencido(antes[i], hoy) ==> siguientes == filas[i := antes[i].(activo := false)] && siguiente == total + 1
    requires !Vencido(antes[i], hoy) ==> siguientes == filas && siguiente == total
    ensures siguientes == Barrido(antes[..i + 1], hoy) + antes[i + 1..]
    ensures siguiente == Seleccionados(antes[..i + 1], hoy)
  {
    BarridoPaso(antes, i, hoy);
  }

  /** `Command.handle`: deactivates the selected contracts in the table and
      returns how many there were, the number the command reports.  Re-saving
      keeps each code because every stored code is non-empty (`CodigoEstable`). */
  method InactivarContratos(tabla: TablaContratos, hoy: int) returns (total: nat)
    requires tabla.Valid()
    modifies tabla
    ensures tabla.Valid()
    ensures tabla.filas == Barrido(old(tabla.filas), hoy)
    ensures total == Seleccionados(old(tabla.filas), hoy)
  {
    var filas;
    filas, total := BarrerFilas(tabla.filas, hoy);
    BarridoPreservaValidez(tabla.filas, hoy);
    tabla.filas := filas;
  }
}
