/** Events at instants of one clock. */
module Timeline {
  const SECONDS_PER_DAY: int := 86_400

  datatype Timed<+E> = Timed(at: int, event: E)

  /** The events happen in this order, none before `start`. */
  ghost predicate InOrder<E>(trace: seq<Timed<E>>, start: int) {
    && (forall i | 0 <= i < |trace| :: start <= trace[i].at)
    && forall i, j | 0 <= i < j < |trace| :: trace[i].at <= trace[j].at
  }

  ghost function LastTime<E>(trace: seq<Timed<E>>, start: int): int {
    if trace == [] then start else trace[|trace| - 1].at
  }
}
