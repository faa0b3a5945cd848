/** The control bits and the twelve-state table of the pulse-sequence compiler. */
module TsgStates {

  const S_BIT: bv8 := 0x01
  const R_BIT: bv8 := 0x02
  const X_BIT: bv8 := 0x04
  const A_BIT: bv8 := 0x08
  const P_BIT: bv8 := 0x10
  const SCOPE: bv8 := 0x80

  predicate HasSample(c: bv8) { c & 0x01 != 0 }

  datatype State =
    | Null | SState | A1 | AS1 | AR1 | ARS1 | ARX | ARXS | AR2 | ARS2 | A2 | AS2 | End

  /** One row of the table: the asserted bits and the successor when the next event is a
      sample toggle, a simultaneous sample toggle and pulse event, or a pulse event. */
  datatype StateDef = StateDef(rfvect: bv8, onSample: State, onBoth: State, onPulse: State)

  function Row(st: State): StateDef {
    match st
    case Null   => StateDef(0, SState, AS1, A1)
    case SState => StateDef(S_BIT, Null, A1, AS1)
    case A1     => StateDef(A_BIT, AS1, ARS1, AR1)
    case AS1    => StateDef(A_BIT | S_BIT, A1, AR1, ARS1)
    case AR1    => StateDef(A_BIT | R_BIT, ARS1, ARXS, ARX)
    case ARS1   => StateDef(A_BIT | R_BIT | S_BIT, AR1, ARX, ARXS)
    case ARX    => StateDef(A_BIT | R_BIT | X_BIT, ARXS, ARS2, AR2)
    case ARXS   => StateDef(A_BIT | R_BIT | X_BIT | S_BIT, ARX, AR2, ARS2)
    case AR2    => StateDef(A_BIT | R_BIT, ARS2, AS2, A2)
    case ARS2   => StateDef(A_BIT | R_BIT | S_BIT, AR2, A2, AS2)
    case A2     => StateDef(A_BIT, AS2, SState, Null)
    case AS2    => StateDef(A_BIT | S_BIT, A2, Null, SState)
    case End    => StateDef(0, Null, Null, Null)
  }

  /** The six-phase pulse cycle: 0 idle, 1 and 5 attenuate, 2 and 4 receiver off, 3 transmit. */
  type Phase = q: int | 0 <= q < 6

  function PhaseOf(st: State): Phase {
    match st
    case Null | SState | End => 0
    case A1 | AS1 => 1
    case AR1 | ARS1 => 2
    case ARX | ARXS => 3
    case AR2 | ARS2 => 4
    case A2 | AS2 => 5
  }

  predicate Sampling(st: State) {
    st in {SState, AS1, ARS1, ARXS, ARS2, AS2}
  }

  function PhaseBits(q: Phase): bv8 {
    if q == 0 then 0
    else if q == 1 || q == 5 then A_BIT
    else if q == 3 then A_BIT | R_BIT | X_BIT
    else A_BIT | R_BIT
  }

  function SampleBits(on: bool): bv8 {
    if on then S_BIT else 0
  }

  function NextPhase(q: Phase): Phase {
    if q == 5 then 0 else q + 1
  }

  /** The state that combines a pulse phase with a sample level. */
  function Product(q: Phase, on: bool): State {
    if q == 0 then (if on then SState else Null)
    else if q == 1 then (if on then AS1 else A1)
    else if q == 2 then (if on then ARS1 else AR1)
    else if q == 3 then (if on then ARXS else ARX)
    else if q == 4 then (if on then ARS2 else AR2)
    else (if on then AS2 else A2)
  }

  /** The table is the product of the six-phase cycle and a toggle, and nothing else. */
  lemma TableIsProduct(q: Phase, on: bool)
    ensures PhaseOf(Product(q, on)) == q && Sampling(Product(q, on)) == on
    ensures Row(Product(q, on)) ==
            StateDef(PhaseBits(q) | SampleBits(on), Product(q, !on),
                     Product(NextPhase(q), !on), Product(NextPhase(q), on))
    ensures forall st: State | st != End :: st == Product(PhaseOf(st), Sampling(st))
  {
  }
}
