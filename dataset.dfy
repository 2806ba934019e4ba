/** A dataset of input and output matrices, served in shuffled mini-batches.
    The dataset keeps a permutation of its indices and a cursor into it;
    the random source of the shuffle is replaced by the sequence of values
    it would return. */
module Datasets {
  import opened Outcomes
  import opened Matrices

  /** A batch: inputs and their expected outputs, position by position. */
  datatype Batch = Batch(inputs: seq<Matrix>, outputs: seq<Matrix>)

  /** `IntStream.range(0, n)`. */
  function Range(n: nat): (s: seq<int>)
    ensures |s| == n && forall k :: 0 <= k < n ==> s[k] == k
  {
    seq(n, k requires 0 <= k < n => k)
  }

  /** s with the entries at i and j exchanged. */
  function Swap(s: seq<int>, i: nat, j: nat): (t: seq<int>)
    requires i < |s| && j < |s|
    ensures |t| == |s| && t[i] == s[j] && t[j] == s[i]
    ensures forall k :: 0 <= k < |s| && k != i && k != j ==> t[k] == s[k]
  {
    s[i := s[j]][j := s[i]]
  }

  /** The Durstenfeld pass from position i down to 1: swap position i with
      position choices[i], then continue with i - 1. */
  ghost function ShuffleDown(s: seq<int>, choices: seq<int>, i: int): seq<int>
    requires i < |s| && i < |choices|
    requires forall k :: 0 < k <= i ==> 0 <= choices[k] <= k
    decreases i
  {
    if i <= 0 then s else ShuffleDown(Swap(s, i, choices[i]), choices, i - 1)
  }

  /** The oracle answers `nextInt(i + 1)` for each position i of the pass. */
  ghost predicate ValidChoices(choices: seq<int>, n: nat)
  {
    |choices| == n && forall k :: 0 < k < n ==> 0 <= choices[k] <= k
  }

  /** Items gathered at the given positions. */
  function Gather(items: seq<Matrix>, positions: seq<int>): (r: seq<Matrix>)
    requires forall t :: 0 <= t < |positions| ==> 0 <= positions[t] < |items|
    ensures |r| == |positions| && forall t :: 0 <= t < |positions| ==> r[t] == items[positions[t]]
  {
    seq(|positions|, t requires 0 <= t < |positions| => items[positions[t]])
  }

  /** The size of a full batch: batchSize items, fewer when the remainder is
      shorter, none when batchSize <= 0. */
  function BatchLength(batchSize: int, remaining: int): nat
  {
    if batchSize <= 0 || remaining <= 0 then 0
    else if batchSize < remaining then batchSize
    else remaining
  }

  /** How many of the k positions from `from` on can be served before one
      names an index that `outputs` lacks. */
  ghost function Reach(order: seq<int>, outputs: seq<Matrix>, from: nat, k: nat): (t: nat)
    requires from + k <= |order|
    ensures t <= k
    ensures forall u :: from <= u < from + t ==> order[u] < |outputs|
    ensures t < k ==> order[from + t] >= |outputs|
    decreases k
  {
    if k == 0 then 0
    else if order[from] >= |outputs| then 0
    else 1 + Reach(order, outputs, from + 1, k - 1)
  }

  class Dataset {
    const data: seq<Matrix>
    const outputs: seq<Matrix>
    var shuffledIndices: array<int>
    var currentIndex: int
    /** The indices the cursor has passed since the last shuffle, in order.  A
        batch that fails on a missing output still counts the indices passed
        before the failure, though no batch reached the caller. */
    ghost var served: seq<int>

    /** The indices form a permutation of 0..size-1, the cursor lies in
        0..size, and what was served is the prefix before the cursor. */
    ghost predicate Valid()
      reads this, shuffledIndices
    {
      shuffledIndices.Length == |data| &&
      0 <= currentIndex <= |data| &&
      multiset(shuffledIndices[..]) == multiset(Range(|data|)) &&
      (forall k :: 0 <= k < shuffledIndices.Length ==> 0 <= shuffledIndices[k] < |data|) &&
      served == shuffledIndices[..currentIndex]
    }

    /** The constructor stores both lists and shuffles. */
    constructor (data: seq<Matrix>, outputs: seq<Matrix>, choices: seq<int>)
      requires ValidChoices(choices, |data|)
      ensures Valid() && this.data == data && this.outputs == outputs
      ensures currentIndex == 0 && served == []
      ensures shuffledIndices[..] == ShuffleDown(Range(|data|), choices, |data| - 1)
    {
      this.data := data;
      this.outputs := outputs;
      shuffledIndices := new int[0];
      new;
      ShuffleDataset(choices);
    }

    /** `shuffleDataset`: a fresh 0..size-1, permuted by the Durstenfeld pass
        i = size-1 down to 1 with j = choices[i] in 0..i, then the cursor goes back to 0. */
    method ShuffleDataset(choices: seq<int>)
      requires ValidChoices(choices, |data|)
      modifies this
      ensures Valid() && fresh(shuffledIndices)
      ensures shuffledIndices[..] == ShuffleDown(Range(|data|), choices, |data| - 1)
      ensures currentIndex == 0 && served == []
    {
      var n := |data|;
      var indices := new int[n](k => k);
      assert indices[..] == Range(n);
      var i := n - 1;
      while i > 0
        invariant -1 <= i < n
        invariant ShuffleDown(indices[..], choices, i) == ShuffleDown(Range(n), choices, n - 1)
        invariant multiset(indices[..]) == multiset(Range(n))
        decreases i
      {
        var j := choices[i];
        ghost var before := indices[..];
        var temp := indices[i];
        indices[i] := indices[j];
        indices[j] := temp;
        assert indices[..] == Swap(before, i, j);
        SwapPermutes(before, i, j);
        i := i - 1;
      }
      InRange(indices[..], n);
      shuffledIndices := indices;
      currentIndex := 0;
      served := [];
    }

    /** `hasNextBatch`: some index of this shuffle has not been served. */
    predicate HasNextBatch(): (b: bool)
      reads this, shuffledIndices
      ensures b <==> currentIndex < |data|
      ensures Valid() ==> (b <==> |served| < |data|)
    {
      currentIndex < |data|
    }

    /** `getNextBatch(batchSize)`: up to batchSize items from the cursor on.
        None (Java's null) when the cursor is already at the end; a shorter
        batch when the end comes first; an empty batch when batchSize <= 0.
        `outputs.get` throws on an index the output list lacks, after the
        items before it have advanced the cursor. */
    method GetNextBatch(batchSize: int) returns (r: Result<Option<Batch>>)
      requires Valid()
      modifies this
      ensures Valid() && shuffledIndices == old(shuffledIndices)
      ensures old(currentIndex) <= currentIndex
      ensures currentIndex == old(currentIndex) +
                Reach(shuffledIndices[..], outputs, old(currentIndex), BatchLength(batchSize, |data| - old(currentIndex)))
      ensures served == old(served) + shuffledIndices[old(currentIndex)..currentIndex]
      ensures r.Failure? <==> currentIndex < old(currentIndex) + BatchLength(batchSize, |data| - old(currentIndex))
      ensures r.Failure? ==> r.error == IndexOutOfBounds
      ensures r == Success(None) <==> batchSize > 0 && old(currentIndex) == |data|
      ensures r.Success? && r.value.Some? ==>
                r.value.value == Batch(Gather(data, shuffledIndices[old(currentIndex)..currentIndex]),
                                       Gather(outputs, shuffledIndices[old(currentIndex)..currentIndex]))
    {
      var start := currentIndex;
      ghost var order := shuffledIndices[..];
      var batchData, batchOutputs, cursor, ended, missing := Collect(batchSize);
      PrefixSplit(order, start, cursor);
      currentIndex, served := cursor, served + order[start..cursor];
      if missing {
        return Failure(IndexOutOfBounds);
      }
      if ended && cursor == start {
        return Success(None);
      }
      r := Success(Some(Batch(batchData, batchOutputs)));
    }

    /** The loop of `getNextBatch`, with the cursor advanced in a local: the
        items at the shuffled positions from the cursor on, until batchSize
        are taken, the indices end (ended) or an index lacks an output
        (missing, where `outputs.get` throws). */
    method Collect(batchSize: int) returns (batchData: seq<Matrix>, batchOutputs: seq<Matrix>, cursor: int, ended: bool, missing: bool)
      requires Valid()
      ensures cursor == currentIndex +
                Reach(shuffledIndices[..], outputs, currentIndex, BatchLength(batchSize, |data| - currentIndex))
      ensures missing <==> cursor < currentIndex + BatchLength(batchSize, |data| - currentIndex)
      ensures !missing && ended && cursor == currentIndex <==> batchSize > 0 && currentIndex == |data|
      ensures batchData == Gather(data, shuffledIndices[currentIndex..cursor])
      ensures batchOutputs == Gather(outputs, shuffledIndices[currentIndex..cursor])
    {
      ghost var start := currentIndex;
      ghost var k := BatchLength(batchSize, |data| - start);
      ghost var order := shuffledIndices[..];
      batchData, batchOutputs := [], [];
      cursor := currentIndex;
      ended, missing := false, false;
      var i := 0;
      while i < batchSize
        invariant 0 <= i <= k && cursor == start + i
        invariant Reach(order, outputs, start, k) >= i
        invariant batchData == Gather(data, order[start..cursor])
        invariant batchOutputs == Gather(outputs, order[start..cursor])
        decreases batchSize - i
      {
        if cursor >= |data| {
          ReachAll(order, outputs, start, k, i);
          ended := true;
          break;
        }
        var dataIndex := shuffledIndices[cursor];
        if dataIndex >= |outputs| {
          ReachStops(order, outputs, start, k, i);
          missing := true;
          break;
        }
        batchData := batchData + [data[dataIndex]];
        batchOutputs := batchOutputs + [outputs[dataIndex]];
        ReachStep(order, outputs, start, k, i);
        assert order[start..cursor + 1] == order[start..cursor] + [dataIndex];
        cursor := cursor + 1;
        i := i + 1;
      }
      if !ended && !missing {
        ReachAll(order, outputs, start, k, i);
      }
    }

    /** `getDataAtIndex`: `List.get` throws outside 0..size-1. */
    function DataAtIndex(index: int): (r: Result<Matrix>)
      ensures r.Failure? <==> !(0 <= index < |data|)
      ensures r.Failure? ==> r.error == IndexOutOfBounds
      ensures r.Success? ==> r.value == data[index]
    {
      if 0 <= index < |data| then Success(data[index]) else Failure(IndexOutOfBounds)
    }

    /** `getOutputAtIndex`: `List.get` throws outside the output list. */
    function OutputAtIndex(index: int): (r: Result<Matrix>)
      ensures r.Failure? <==> !(0 <= index < |outputs|)
      ensures r.Failure? ==> r.error == IndexOutOfBounds
      ensures r.Success? ==> r.value == outputs[index]
    {
      if 0 <= index < |outputs| then Success(outputs[index]) else Failure(IndexOutOfBounds)
    }

    /** `getSize`: the number of inputs, which is also the number of shuffled indices. */
    function Size(): (n: nat)
      reads this, shuffledIndices
      ensures n == |data|
      ensures Valid() ==> n == shuffledIndices.Length && multiset(shuffledIndices[..]) == multiset(Range(n))
    {
      |data|
    }

    /** Once no batch is left, the indices the cursor passed since the shuffle
        hold every index of the dataset exactly once. */
    lemma ServedExactlyOnce()
      requires Valid() && !HasNextBatch()
      ensures |served| == |data|
      ensures forall k :: 0 <= k < |data| ==> multiset(served)[k] == 1
      ensures forall k :: multiset(served)[k] > 0 ==> 0 <= k < |data|
    {
      assert served == shuffledIndices[..];
      RangeCount(|data|);
    }
  }

  // ---------------------------------------------------------------------
  // Lemmas about the shuffle and the batch bound
  // ---------------------------------------------------------------------

  lemma PrefixSplit(s: seq<int>, a: nat, b: nat)
    requires a <= b <= |s|
    ensures s[..a] + s[a..b] == s[..b]
  {
  }

  lemma SwapPermutes(s: seq<int>, i: nat, j: nat)
    requires i < |s| && j < |s|
    ensures multiset(Swap(s, i, j)) == multiset(s)
  {
    var t := s[i := s[j]];
    assert multiset(t) == multiset(s) - multiset{s[i]} + multiset{s[j]};
    assert multiset(t[j := s[i]]) == multiset(t) - multiset{t[j]} + multiset{s[i]};
  }

  /** The Durstenfeld pass only rearranges: for any answers of the oracle the
      result is a permutation of its input. */
  lemma {:induction false} ShuffleDownPermutes(s: seq<int>, choices: seq<int>, i: int)
    requires i < |s| && i < |choices|
    requires forall k :: 0 < k <= i ==> 0 <= choices[k] <= k
    ensures |ShuffleDown(s, choices, i)| == |s|
    ensures multiset(ShuffleDown(s, choices, i)) == multiset(s)
    decreases i
  {
    if i > 0 {
      SwapPermutes(s, i, choices[i]);
      ShuffleDownPermutes(Swap(s, i, choices[i]), choices, i - 1);
    }
  }

  /** Each of 0..n-1 occurs exactly once in 0..n-1, and nothing else does. */
  lemma {:induction false} RangeCount(n: nat)
    ensures forall k :: 0 <= k < n ==> multiset(Range(n))[k] == 1
    ensures forall k :: multiset(Range(n))[k] > 0 ==> 0 <= k < n
  {
    if n > 0 {
      RangeCount(n - 1);
      assert Range(n) == Range(n - 1) + [n - 1];
      assert multiset(Range(n)) == multiset(Range(n - 1)) + multiset{n - 1};
    }
  }

  /** A permutation of 0..n-1 holds only values in 0..n-1. */
  lemma InRange(s: seq<int>, n: nat)
    requires multiset(s) == multiset(Range(n))
    ensures forall k :: 0 <= k < |s| ==> 0 <= s[k] < n
  {
    RangeCount(n);
    forall k | 0 <= k < |s|
      ensures 0 <= s[k] < n
    {
      assert s[k] in multiset(s);
    }
  }

  lemma {:induction false} ReachStep(order: seq<int>, outputs: seq<Matrix>, from: nat, k: nat, i: nat)
    requires from + k <= |order| && i < k && Reach(order, outputs, from, k) >= i
    requires order[from + i] < |outputs|
    ensures Reach(order, outputs, from, k) >= i + 1
    decreases i
  {
    if i > 0 {
      ReachStep(order, outputs, from + 1, k - 1, i - 1);
    }
  }

  lemma ReachStops(order: seq<int>, outputs: seq<Matrix>, from: nat, k: nat, i: nat)
    requires from + k <= |order| && i < k && Reach(order, outputs, from, k) >= i
    requires order[from + i] >= |outputs|
    ensures Reach(order, outputs, from, k) == i
  {
  }

  lemma ReachAll(order: seq<int>, outputs: seq<Matrix>, from: nat, k: nat, i: nat)
    requires from + k <= |order| && i == k && Reach(order, outputs, from, k) >= i
    ensures Reach(order, outputs, from, k) == k
  {
  }
}
