/** Measurements and flight-data samples as the analysers see them. */
module Recording {
  import opened Actions

  /** An IEEE double without its rounding: a real number, an infinity, or not a number. */
  datatype Float = NaN | NegInf | PosInf | Fin(r: real) {
    predicate IsFinite() {
      Fin?
    }

    function Neg(): Float {
      match this
      case NaN => NaN
      case NegInf => PosInf
      case PosInf => NegInf
      case Fin(r) => Fin(-r)
    }

    function Abs(): Float {
      match this
      case NaN => NaN
      case NegInf => PosInf
      case PosInf => PosInf
      case Fin(r) => Fin(if r < 0.0 then -r else r)
    }

    /** Every comparison with NaN is false. */
    predicate Le(that: Float) {
      && !NaN? && !that.NaN?
      && (NegInf? || that.PosInf? || (Fin? && that.Fin? && r <= that.r))
    }

    predicate Lt(that: Float) {
      Le(that) && this != that
    }

    function Plus(that: Float): Float {
      if NaN? || that.NaN? then NaN
      else if Fin? && that.Fin? then Fin(r + that.r)
      else if Fin? then that
      else if that.Fin? || this == that then this
      else NaN
    }

    /** The larger of the two; NaN gives way to a number. */
    function Max(that: Float): Float {
      if NaN? then that else if that.NaN? then this else if Le(that) then that else this
    }
  }

  type Measure = Option<Float>

  /** The value of a measurement that is known and finite. */
  function Finite(m: Measure): (f: Option<real>)
    ensures f.Some? <==> m.Some? && m.value.IsFinite()
  {
    if m.Some? && m.value.Fin? then Some(m.value.r) else None
  }

  datatype Position = Position(lat: Float, lon: Float)

  /** One flight-data sample, with the fields some analyser reads. */
  datatype FdrSample = FdrSample(
    seqNo: nat, ms: nat, onGround: Option<bool>,
    agl: Measure, vs: Measure, ias: Measure, gs: Measure, pitch: Measure, bank: Measure, heading: Measure,
    position: Option<Position>, phase: string)
}
