/** Context compaction: old steps are dropped from the front of the history and one summary takes their
    place. The token estimates and the summary text come from outside. */
module Compaction {
  import opened Durable

  function Sum(tokens: seq<nat>): nat {
    if tokens == [] then 0 else tokens[0] + Sum(tokens[1..])
  }

  /** The drop loop stops after d steps: few enough are left, or their tokens fit in half the threshold. */
  predicate StopsAt(tokens: seq<nat>, threshold: nat, preserveRecent: nat, d: nat)
    requires d <= |tokens|
  {
    |tokens| - d <= preserveRecent || Sum(tokens[d..]) <= threshold / 2
  }

  /** The history after dropping d steps. */
  function Compacted(st: ExecutionState, d: nat): ExecutionState
    requires d <= |st.steps|
  {
    st.(steps := [ReActStep(st.total, Summary)] + st.steps[d..])
  }

  /** What compaction must do: nothing when it is disabled or the history fits, and otherwise drop the
      fewest steps that satisfy the stop rule, keeping at least one recent step. */
  ghost predicate IsCompaction(st: ExecutionState, tokens: seq<nat>, enabled: bool, threshold: nat,
                               preserveRecent: nat, out: ExecutionState)
    requires |tokens| == |st.steps|
  {
    var keep := if preserveRecent > 1 then preserveRecent else 1;
    if !enabled || Sum(tokens) <= threshold || StopsAt(tokens, threshold, keep, 0) then out == st
    else exists d | 0 < d < |st.steps| ::
      && StopsAt(tokens, threshold, keep, d)
      && (forall fewer | 0 <= fewer < d :: !StopsAt(tokens, threshold, keep, fewer))
      && out == Compacted(st, d)
  }

  method CompactIfNeeded(st: ExecutionState, tokens: seq<nat>, enabled: bool, threshold: nat, preserveRecent: nat)
    returns (out: ExecutionState)
    requires |tokens| == |st.steps|
    ensures IsCompaction(st, tokens, enabled, threshold, preserveRecent, out)
    ensures out.total == st.total && out.conv == st.conv
    ensures out == st || exists d | 0 < d < |st.steps| ::
      && |out.steps| == |st.steps| - d + 1
      && out.steps[0] == ReActStep(st.total, Summary) && out.steps[1..] == st.steps[d..]
  {
    if !enabled {
      return st;
    }
    var totalTokens := 0;
    for i := 0 to |tokens|
      invariant totalTokens + Sum(tokens[i..]) == Sum(tokens)
    {
      assert tokens[i..][1..] == tokens[i + 1..];
      totalTokens := totalTokens + tokens[i];
    }
    if totalTokens <= threshold {
      return st;
    }
    var keep := if preserveRecent > 1 then preserveRecent else 1;
    var currentTokens, dropCount := totalTokens, 0;
    assert tokens[0..] == tokens;
    while dropCount < |tokens| && !(|tokens| - dropCount <= keep || currentTokens <= threshold / 2)
      invariant 0 <= dropCount < |tokens|
      invariant currentTokens == Sum(tokens[dropCount..])
      invariant forall fewer | 0 <= fewer < dropCount :: !StopsAt(tokens, threshold, keep, fewer)
    {
      assert tokens[dropCount..][1..] == tokens[dropCount + 1..];
      currentTokens := currentTokens - tokens[dropCount];
      dropCount := dropCount + 1;
    }
    if dropCount == 0 {
      return st;
    }
    out := Compacted(st, dropCount);
  }

  /** Compaction keeps every kept step as it was, and the history in order. */
  lemma CompactionInOrder(st: ExecutionState, d: nat, bound: nat)
    requires InOrder(st, bound) && d <= |st.steps|
    ensures InOrder(Compacted(st, d), bound)
    ensures Compacted(st, d).total == st.total && Compacted(st, d).conv == st.conv
  {
    var steps := Compacted(st, d).steps;
    assert forall i | 1 <= i < |steps| :: steps[i] == st.steps[i - 1 + d];
  }
}
