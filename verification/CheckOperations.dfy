/** `checkOperations` and the sequential meaning of `checkParallel` (src/porcupine/checker.go):
    every partition is checked, and the verdict is their conjunction. */
module CheckOperations {
  import opened Linearizability
  import opened Entries
  import opened Search
  import opened PartialLinearizations
  import opened Checker

  datatype CheckResult = Ok | Illegal

  /** Every order stored for an operation contains it, repeats no id, respects real time and is
      accepted by the model. */
  ghost predicate AnswersMeaningful<S, I, O>(
    m: Model<S, I, O>, ops: seq<Operation<I, O>>, longest: seq<Option<seq<int>>>)
  {
    && |longest| == |ops|
    && forall i | 0 <= i < |ops| && longest[i].Some? ::
         i in longest[i].value && Meaningful(m, ops, longest[i].value)
  }

  lemma ReportedIsMeaningful<S(!new), I, O>(
    m: Model<S, I, O>, e: seq<Entry<I, O>>, ops: seq<Operation<I, O>>, longest: seq<Option<seq<int>>>)
    requires Shows(e, ops) && Reported(m, e, |ops|, longest)
    ensures AnswersMeaningful(m, ops, longest)
  {
    hide Shows, Meaningful;
    forall i | 0 <= i < |ops| && longest[i].Some?
      ensures Meaningful(m, ops, longest[i].value)
    {
      PartialIsMeaningful(m, e, ops, longest[i].value);
    }
  }

  /** No meaningful order that contains an operation is longer than its answer. */
  ghost predicate AnswersLongest<S, I, O>(
    m: Model<S, I, O>, ops: seq<Operation<I, O>>, longest: seq<Option<seq<int>>>)
  {
    forall ids, i | Meaningful(m, ops, ids) && i in ids ::
      0 <= i < |longest| && longest[i].Some? && |longest[i].value| >= |ids|
  }

  lemma LongestIsLongest<S(!new), I, O>(
    m: Model<S, I, O>, e: seq<Entry<I, O>>, ops: seq<Operation<I, O>>, longest: seq<Option<seq<int>>>)
    requires Shows(e, ops) && WellFormed(e, |ops|) && Longest(m, e, |ops|, longest) && !CanFinish(m, e, |ops|, {}, m.init)
    ensures AnswersLongest(m, ops, longest)
  {
    hide Shows, WellFormed, Meaningful, CanFinish, IsPartial;
    forall ids, i | Meaningful(m, ops, ids) && i in ids
      ensures 0 <= i < |longest| && longest[i].Some? && |longest[i].value| >= |ids|
    {
      MeaningfulIsPartial(m, e, ops, ids);
    }
  }

  /** `checkSingle(makeEntries(ops))` is true exactly when the operations are linearizable. */
  method CheckPartition<S(==, !new), I(==, !new), O(==, !new)>(
    model: Model<S, I, O>, ops: seq<Operation<I, O>>, verbose: bool)
    returns (ok: bool, longest: seq<Option<seq<int>>>)
    requires Complete(ops)
    ensures ok <==> Linearizable(model, ops)
    ensures AnswersMeaningful(model, ops, longest)
    ensures ok ==> forall i | 0 <= i < |longest| :: longest[i].Some? && |longest[i].value| == |ops|
    ensures !ok && verbose ==> AnswersLongest(model, ops, longest)
    ensures !ok && !verbose ==> forall i | 0 <= i < |longest| :: longest[i].None?
  {
    hide Linearizable, IsSortedHistory, Represents, Shows, WellFormed, CanFinish, Reported, AnswersMeaningful,
      AnswersLongest, Longest;
    var entries := MakeEntries(ops);
    SortedHistoryRepresents(entries, ops);
    RepresentsShows(entries, ops);
    ShowsWellFormed(Rooted(entries), ops);
    ok, longest := CheckSingle(model, entries, verbose, |ops|);
    SearchMeansLinearizable(model, Rooted(entries), ops);
    ReportedIsMeaningful(model, Rooted(entries), ops, longest);
    if !ok && verbose {
      LongestIsLongest(model, Rooted(entries), ops, longest);
    }
  }

  lemma ShowsWellFormed<I, O>(e: seq<Entry<I, O>>, ops: seq<Operation<I, O>>)
    requires Shows(e, ops)
    ensures WellFormed(e, |ops|)
  {
  }

  /** What a verbose check reports: complete orders for a linearizable history, and for every other the
      longest order there is for each operation. */
  ghost predicate AnswersFull<S(!new), I(!new), O(!new)>(
    m: Model<S, I, O>, ops: seq<Operation<I, O>>, longest: seq<Option<seq<int>>>)
  {
    if Linearizable(m, ops) then forall i | 0 <= i < |longest| :: longest[i].Some? && |longest[i].value| == |ops|
    else AnswersLongest(m, ops, longest)
  }

  lemma FullAnswers<S(!new), I(!new), O(!new)>(
    m: Model<S, I, O>, ops: seq<Operation<I, O>>, longest: seq<Option<seq<int>>>, ok: bool)
    requires ok <==> Linearizable(m, ops)
    requires ok ==> forall i | 0 <= i < |longest| :: longest[i].Some? && |longest[i].value| == |ops|
    requires !ok ==> AnswersLongest(m, ops, longest)
    ensures AnswersFull(m, ops, longest)
  {
    hide Linearizable, AnswersLongest;
  }

  /** All partitions one after the other; without `verbose` the first failure ends the check. */
  method CheckAll<S(==, !new), I(==, !new), O(==, !new)>(
    model: Model<S, I, O>, parts: seq<seq<Operation<I, O>>>, verbose: bool)
    returns (result: CheckResult, info: seq<seq<Option<seq<int>>>>)
    requires parts != [] && forall p | p in parts :: Complete(p)
    ensures result == Ok <==> forall p | p in parts :: Linearizable(model, p)
    ensures verbose ==> |info| == |parts|
    ensures |info| <= |parts| && forall i | 0 <= i < |info| :: AnswersMeaningful(model, parts[i], info[i])
    ensures verbose ==> forall i | 0 <= i < |info| :: AnswersFull(model, parts[i], info[i])
  {
    hide Linearizable, AnswersMeaningful, AnswersFull, Complete;
    info := [];
    var ok := true;
    for i := 0 to |parts|
      invariant |info| == i && forall j | 0 <= j < i :: AnswersMeaningful(model, parts[j], info[j])
      invariant verbose ==> forall j | 0 <= j < i :: AnswersFull(model, parts[j], info[j])
      invariant ok <==> forall j | 0 <= j < i :: Linearizable(model, parts[j])
    {
      var one, longest := CheckPartition(model, parts[i], verbose);
      if verbose {
        FullAnswers(model, parts[i], longest, one);
      }
      ok := ok && one;
      info := info + [longest];
      if !ok && !verbose {
        assert exists j :: 0 <= j < |parts| && !Linearizable(model, parts[j]);
        return Illegal, info;
      }
    }
    result := if ok then Ok else Illegal;
  }
}
