/** Runtime bounds compared with a cut that may be infinite. */
module Extended {

  /** A finite value or positive infinity. */
  datatype Ext = Fin(v: real) | Inf {

    /** `b < this`, for a finite `b`. */
    predicate Above(b: real) {
      match this
      case Inf => true
      case Fin(v) => b < v
    }

    predicate Le(other: Ext) {
      match (this, other)
      case (_, Inf) => true
      case (Inf, Fin(_)) => false
      case (Fin(a), Fin(b)) => a <= b
    }

    function Min(other: Ext): Ext {
      if this.Le(other) then this else other
    }
  }
}
