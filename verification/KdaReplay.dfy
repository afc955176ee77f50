/** Speculative recurrent state: one committed state per request, replayed after sampling, in place of one
    stored snapshot per draft token. The transition of one token on one state is the function `step`. */
module KdaReplay {

  /** The state after the first `n` tokens. */
  function Fold<S, T>(step: (S, T) -> S, s: S, toks: seq<T>, n: nat): S
    requires n <= |toks|
  {
    if n == 0 then s else step(Fold(step, s, toks, n - 1), toks[n - 1])
  }

  // ---------------------------------------------------------------- the replay of one launch

  /** Sequence `j` replays its accepted prefix into its slot; padding and the null slot do nothing. */
  ghost function ReplayOne<S, T>(step: (S, T) -> S, slots: seq<S>, toks: seq<T>, bos: int, eos: int, slot: int,
                                 accepted: int): (r: seq<S>)
    requires 0 <= bos <= eos <= |toks| && slot < |slots|
    ensures |r| == |slots|
  {
    var a := if accepted < eos - bos then accepted else eos - bos;
    if a <= 0 || slot <= 0 then slots
    else slots[slot := Fold(step, slots[slot], toks[bos..eos], a)]
  }

  /** The states passed through, one token after another from `from`. */
  ghost predicate IsTrace<S, T>(step: (S, T) -> S, s: S, toks: seq<T>, from: int, states: seq<S>) {
    && states != [] && states[0] == s && 0 <= from <= from + |states| - 1 <= |toks|
    && forall i :: 0 <= i < |states| - 1 ==> states[i + 1] == step(states[i], toks[from + i])
  }

  lemma {:induction false} FoldTrace<S, T>(step: (S, T) -> S, s: S, toks: seq<T>, from: nat, to: nat, n: nat)
    returns (states: seq<S>)
    requires from + n <= to <= |toks|
    ensures |states| == n + 1 && IsTrace(step, s, toks, from, states)
    ensures states[n] == Fold(step, s, toks[from..to], n)
  {
    if n == 0 {
      states := [s];
    } else {
      var before := FoldTrace(step, s, toks, from, to, n - 1);
      assert toks[from..to][n - 1] == toks[from + (n - 1)];
      states := before + [step(before[n - 1], toks[from + (n - 1)])];
    }
  }

  /** A sequence with a live slot and something accepted ends at the state that its accepted tokens lead to, at most
      all it has; every other slot, and all of them otherwise, stay as they are. */
  lemma ReplayOneIs<S, T>(step: (S, T) -> S, slots: seq<S>, toks: seq<T>, bos: int, eos: int, slot: int, accepted: int)
    requires 0 <= bos <= eos <= |toks| && slot < |slots|
    ensures var r := ReplayOne(step, slots, toks, bos, eos, slot, accepted);
            && (forall j :: 0 <= j < |slots| && j != slot ==> r[j] == slots[j])
            && (slot <= 0 || accepted <= 0 || bos == eos ==> r == slots)
            && (slot > 0 && accepted > 0 && bos < eos ==>
                  exists states :: IsTrace(step, slots[slot], toks, bos, states) && r[slot] == states[|states| - 1]
                                   && |states| - 1 <= accepted && |states| - 1 <= eos - bos
                                   && (|states| - 1 == accepted || |states| - 1 == eos - bos))
  {
    var a := if accepted < eos - bos then accepted else eos - bos;
    if slot > 0 && a > 0 {
      var states := FoldTrace(step, slots[slot], toks, bos, eos, a);
    }
  }

  /** Staged metadata: monotone offsets into the token buffer and slots inside the state table. */
  ghost predicate MetaOk(cu: seq<int>, idx: seq<int>, tokens: nat, slots: nat) {
    && |cu| == |idx| + 1
    && (forall j :: 0 <= j < |cu| ==> 0 <= cu[j] <= tokens)
    && (forall j, k :: 0 <= j < k < |cu| ==> cu[j] <= cu[k])
    && (forall j :: 0 <= j < |idx| ==> idx[j] < slots)
  }

  ghost function ReplayAll<S, T>(step: (S, T) -> S, slots: seq<S>, toks: seq<T>, cu: seq<int>, idx: seq<int>,
                                 acc: seq<int>, n: nat): (r: seq<S>)
    requires MetaOk(cu, idx, |toks|, |slots|) && |acc| == |idx| && n <= |idx|
    ensures |r| == |slots|
  {
    if n == 0 then slots
    else ReplayOne(step, ReplayAll(step, slots, toks, cu, idx, acc, n - 1), toks, cu[n - 1], cu[n], idx[n - 1],
                   acc[n - 1])
  }

  /** The entries selected by a mask, in order: how per-request counts become per-sequence counts. */
  function Select<A>(xs: seq<A>, mask: seq<bool>, n: nat): (r: seq<A>)
    requires n <= |xs| && n <= |mask|
    ensures |r| == Rank(mask, n)
  {
    if n == 0 then [] else Select(xs, mask, n - 1) + if mask[n - 1] then [xs[n - 1]] else []
  }

  /** How many of the first `n` mask entries are set. */
  function Rank(mask: seq<bool>, n: nat): (r: nat)
    requires n <= |mask|
    ensures r <= n
  {
    if n == 0 then 0 else Rank(mask, n - 1) + if mask[n - 1] then 1 else 0
  }

  /** The metadata that staging leaves in the fixed-size buffers: padding sequences are empty, own the null slot and
      no request. */
  function StagedCu(cuSeqlens: seq<int>, sequences: nat, tokens: nat, max: nat): (r: seq<int>)
    requires sequences + 1 <= |cuSeqlens| && sequences <= max
    ensures |r| == max + 1
  {
    cuSeqlens[..sequences + 1] + seq(max - sequences, _ => tokens)
  }

  function StagedSlots(slots: seq<int>, sequences: nat, max: nat): (r: seq<int>)
    requires sequences <= |slots| && sequences <= max
    ensures |r| == max
  {
    slots[..sequences] + seq(max - sequences, _ => 0)
  }

  function StagedMask(mask: seq<bool>, max: nat): (r: seq<bool>)
    requires |mask| <= max
    ensures |r| == max
  {
    mask + seq(max - |mask|, _ => false)
  }

  /** The accepted counts as the replay reads them. */
  function PaddedCounts(counts: seq<int>, max: nat): (r: seq<int>)
    requires |counts| <= max
    ensures |r| == max
  {
    counts + seq(max - |counts|, _ => 0)
  }

  /** The layer's replay buffers have fixed maximum shapes, because captured graphs rewrite the same
      tensors; whatever an earlier step left past the live entries must not matter. */
  class CompactLayer<S(0), T(0)> {
    const step: (S, T) -> S
    const maxSequences: nat
    const tokens: array<T>
    const cu: array<int>
    const slotOf: array<int>
    const mask: array<bool>
    const accepted: array<int>
    const state: array<S>
    var pending: bool

    ghost predicate Shapes() {
      && cu.Length == maxSequences + 1 && slotOf.Length == maxSequences
      && mask.Length == maxSequences && accepted.Length == maxSequences
      && tokens as object != cu && tokens as object != slotOf && tokens as object != mask
      && tokens as object != accepted && tokens as object != state
      && state as object != cu && state as object != slotOf && state as object != mask && state as object != accepted
      && cu !in {slotOf, accepted} && slotOf != accepted
    }

    constructor (step: (S, T) -> S, maxSequences: nat, maxTokens: nat, state: array<S>)
      ensures Shapes() && this.step == step && this.maxSequences == maxSequences && tokens.Length == maxTokens
      ensures this.state == state && fresh(tokens) && fresh(cu) && fresh(slotOf) && fresh(mask) && fresh(accepted)
      ensures !pending
    {
      this.step, this.maxSequences, this.state, pending := step, maxSequences, state, false;
      tokens, cu, slotOf := new T[maxTokens], new int[maxSequences + 1], new int[maxSequences];
      mask, accepted := new bool[maxSequences], new int[maxSequences];
    }

    /** Captures the candidate transitions of one verification; slots come from table column zero. */
    method Stage(toks: seq<T>, cuSeqlens: seq<int>, slots: seq<int>, sequenceMask: seq<bool>, sequences: nat)
      requires Shapes() && |toks| <= tokens.Length && sequences <= maxSequences
      requires sequences + 1 <= |cuSeqlens| && sequences <= |slots| && |sequenceMask| <= maxSequences
      modifies tokens, cu, slotOf, mask, `pending
      ensures pending && tokens[..|toks|] == toks && tokens[|toks|..] == old(tokens[|toks|..])
      ensures cu[..] == StagedCu(cuSeqlens, sequences, |toks|, maxSequences)
      ensures slotOf[..] == StagedSlots(slots, sequences, maxSequences)
      ensures mask[..] == StagedMask(sequenceMask, maxSequences)
      ensures forall j :: 0 <= j <= maxSequences ==> cu[j] == if j <= sequences then cuSeqlens[j] else |toks|
      ensures forall j :: 0 <= j < maxSequences ==>
                && slotOf[j] == (if j < sequences then slots[j] else 0)
                && mask[j] == (j < |sequenceMask| && sequenceMask[j])
    {
      for i := 0 to |toks|
        invariant forall j :: 0 <= j < i ==> tokens[j] == toks[j]
        invariant forall j :: i <= j < tokens.Length ==> tokens[j] == old(tokens[j])
      {
        tokens[i] := toks[i];
      }
      assert tokens[..|toks|] == toks && tokens[|toks|..] == old(tokens[|toks|..]);
      for i := 0 to maxSequences + 1
        invariant forall j :: 0 <= j < i ==> cu[j] == if j <= sequences then cuSeqlens[j] else |toks|
        invariant tokens[..|toks|] == toks && tokens[|toks|..] == old(tokens[|toks|..])
      {
        cu[i] := if i <= sequences then cuSeqlens[i] else |toks|;
      }
      for i := 0 to maxSequences
        invariant forall j :: 0 <= j < i ==> slotOf[j] == if j < sequences then slots[j] else 0
        invariant forall j :: 0 <= j < i ==> mask[j] == (j < |sequenceMask| && sequenceMask[j])
        invariant forall j :: 0 <= j <= maxSequences ==> cu[j] == if j <= sequences then cuSeqlens[j] else |toks|
        invariant tokens[..|toks|] == toks && tokens[|toks|..] == old(tokens[|toks|..])
      {
        slotOf[i] := if i < sequences then slots[i] else 0;
        mask[i] := i < |sequenceMask| && sequenceMask[i];
      }
      pending := true;
    }

    /** The post-sampling hook: keep the sampled counts of the masked requests, then replay them. */
    method Commit(sampled: seq<int>) returns (ok: bool)
      requires Shapes() && |sampled| <= maxSequences
      requires MetaOk(cu[..], slotOf[..], tokens.Length, state.Length)
      modifies accepted, state, `pending
      ensures ok && !pending
      ensures var counts := Select(sampled, mask[..], |sampled|);
              state[..] == ReplayAll(step, old(state[..]), tokens[..], cu[..], slotOf[..],
                                     PaddedCounts(counts, maxSequences), maxSequences)
    {
      var counts: seq<int> := [];
      for r := 0 to |sampled|
        invariant counts == Select(sampled, mask[..], r)
      {
        counts := counts + if mask[r] then [sampled[r]] else [];
      }
      ok := Replay(counts);
    }

    /** Replays into the state table; more counts than sequences is the source's error. */
    method Replay(counts: seq<int>) returns (ok: bool)
      requires Shapes() && MetaOk(cu[..], slotOf[..], tokens.Length, state.Length)
      modifies accepted, state, `pending
      ensures ok == (|counts| <= maxSequences)
      ensures !ok ==> state[..] == old(state[..]) && pending == old(pending)
      ensures ok ==> forall j :: 0 <= j < maxSequences ==> accepted[j] == if j < |counts| then counts[j] else 0
      ensures ok ==> !pending && state[..] == ReplayAll(step, old(state[..]), tokens[..], cu[..], slotOf[..],
                                                        PaddedCounts(counts, maxSequences), maxSequences)
    {
      if |counts| > maxSequences {
        return false;
      }
      for i := 0 to maxSequences
        invariant forall j :: 0 <= j < i ==> accepted[j] == if j < |counts| then counts[j] else 0
        invariant state[..] == old(state[..])
      {
        accepted[i] := if i < |counts| then counts[i] else 0;
      }
      ghost var padded := PaddedCounts(counts, maxSequences);
      assert accepted[..] == padded && state[..] == old(state[..]);
      Kernel();
      assert accepted[..] == padded;
      pending := false;
      ok := true;
    }

    /** One program per sequence. */
    method Kernel()
      requires Shapes() && MetaOk(cu[..], slotOf[..], tokens.Length, state.Length)
      modifies state
      ensures state[..] == ReplayAll(step, old(state[..]), tokens[..], cu[..], slotOf[..], accepted[..], maxSequences)
    {
      for n := 0 to maxSequences
        invariant state[..] == ReplayAll(step, old(state[..]), tokens[..], cu[..], slotOf[..], accepted[..], n)
      {
        Program(n);
      }
    }

    method Program(n: nat)
      requires Shapes() && n < maxSequences && MetaOk(cu[..], slotOf[..], tokens.Length, state.Length)
      modifies state
      ensures state[..] == ReplayOne(step, old(state[..]), tokens[..], cu[n], cu[n + 1], slotOf[n], accepted[n])
    {
      var bos, eos := cu[n], cu[n + 1];
      assert cu[..][n] == bos && cu[..][n + 1] == eos && slotOf[..][n] == slotOf[n];
      var a := if accepted[n] < eos - bos then accepted[n] else eos - bos;
      if a <= 0 {
        return;
      }
      var slot := slotOf[n];
      if slot <= 0 {
        return;
      }
      var s := state[slot];
      ghost var window := tokens[..][bos..eos];
      for t := 0 to a
        invariant s == Fold(step, state[slot], window, t)
      {
        assert window[t] == tokens[bos + t];
        s := step(s, tokens[bos + t]);
      }
      state[slot] := s;
    }
  }
}
