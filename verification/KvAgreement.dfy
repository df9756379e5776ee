/** The service (src/kvraft/state_machine.go) and the model its histories are checked against
    (src/models/kv.go) agree: executing operations one after the other gives answers the model accepts,
    and the same map. */
module KvAgreement {
  import opened Linearizability
  import M = KvModel
  import K = KvReplay

  function AsInput(op: K.Op): M.KvInput {
    M.KvInput(match op.opType case OpGet => 0 case OpPut => 1 case OpAppend => 2, op.key, op.value)
  }

  /** The model accepts an answer of the service to an operation exactly when it is the value read, or
      the operation reads nothing; and its map is the service's. */
  lemma StepsAgree(kv: K.KV, op: K.Op, answer: string)
    ensures var (ok, kv') := M.StoreStep(kv, AsInput(op), M.KvOutput(answer));
            && kv' == K.Effect(kv, op)
            && (ok <==> op.opType != K.OpGet || answer == K.ReplyTo(kv, op).value)
  {
  }

  /** The operations with the answers the service gives, executed in order. */
  ghost function Answered(kv: K.KV, ops: seq<K.Op>): seq<M.KvOperation>
    decreases |ops|
  {
    if ops == [] then []
    else [Operation(ops[0].clientId, AsInput(ops[0]), 0, M.KvOutput(K.ReplyTo(kv, ops[0]).value), 0)]
         + Answered(K.Effect(kv, ops[0]), ops[1..])
  }

  /** For every sequence of operations, the model accepts what the service answers. */
  lemma {:induction false} ServiceAccepted(kv: K.KV, ops: seq<K.Op>)
    ensures Accepted(M.Store(), kv, Answered(kv, ops))
    decreases |ops|
  {
    if ops != [] {
      var rest := Answered(K.Effect(kv, ops[0]), ops[1..]);
      ServiceAccepted(K.Effect(kv, ops[0]), ops[1..]);
      StepsAgree(kv, ops[0], K.ReplyTo(kv, ops[0]).value);
      assert Answered(kv, ops)[1..] == rest;
    }
  }
}
