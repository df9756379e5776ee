/** Operations, models and the meaning of "linearizable" (src/porcupine/model.go). */
module Linearizability {

  /** One completed operation; `call` and `ret` are its invocation and response times. */
  datatype Operation<I, O> = Operation(clientId: int, input: I, call: int, output: O, ret: int)

  /** A sequential specification: `step` says whether the output is possible and gives the new state. */
  datatype Model<!S, !I, !O> = Model(init: S, step: (S, I, O) -> (bool, S))

  /** The model accepts the operations of `lin`, in that order, from state `s`. */
  ghost predicate Accepted<S, I, O>(m: Model<S, I, O>, s: S, lin: seq<Operation<I, O>>)
    decreases |lin|
  {
    lin == [] ||
    var (ok, s') := m.step(s, lin[0].input, lin[0].output);
    ok && Accepted(m, s', lin[1..])
  }

  /** No operation comes before one that had already returned when it was called. */
  ghost predicate RealTimeOrdered<I, O>(lin: seq<Operation<I, O>>) {
    forall i, j | 0 <= i < j < |lin| :: !(lin[j].ret < lin[i].call)
  }

  ghost predicate IsLinearization<S, I, O>(
    m: Model<S, I, O>, s: S, ops: multiset<Operation<I, O>>, lin: seq<Operation<I, O>>)
  {
    multiset(lin) == ops && RealTimeOrdered(lin) && Accepted(m, s, lin)
  }

  ghost predicate LinearizableFrom<S, I(!new), O(!new)>(
    m: Model<S, I, O>, s: S, ops: multiset<Operation<I, O>>)
  {
    exists lin: seq<Operation<I, O>> :: IsLinearization(m, s, ops, lin)
  }

  ghost predicate Linearizable<S, I(!new), O(!new)>(m: Model<S, I, O>, ops: seq<Operation<I, O>>) {
    LinearizableFrom(m, m.init, multiset(ops))
  }
}
