/** What the output of a layer says, told by what moves it: one slot at a time. */
module HybridMeaning {
  import opened Arith
  import opened AwqLayout
  import opened MoeWeights
  import opened HybridApply

  /** Two calls over the same tokens whose contributions differ in slot t only: the sums of token m differ by
      that slot's difference if it is among those summed. */
  lemma {:induction false} SumsDiffer(c: Call, c': Call, w1: Weights, w2: Weights, m: int, k: int, count: nat, t: int)
    requires GoodCall(c, w1, w2) && GoodCall(c', w1, w2) && c'.topK == c.topK && |c'.hidden| == |c.hidden|
    requires 0 <= m < |c.hidden| && 0 <= k < w2.N && count <= c.topK && 0 <= t < c.Slots()
    requires forall u :: 0 <= u < c.Slots() && u != t ==> SecondCell(c', w1, w2, u, k) == SecondCell(c, w1, w2, u, k)
    ensures SumChoices(c', w1, w2, m, k, count) - SumChoices(c, w1, w2, m, k, count)
         == if m * c.topK <= t < m * c.topK + count then SecondCell(c', w1, w2, t, k) - SecondCell(c, w1, w2, t, k) else 0.0
  {
    hide GoodCall, SecondCell;
    if count > 0 {
      RowMajorInRange(m, count - 1, |c.hidden|, c.topK);
      SumsDiffer(c, c', w1, w2, m, k, count - 1, t);
    }
  }

  lemma {:induction false} SumOfZeros(c: Call, w1: Weights, w2: Weights, m: int, k: int, count: nat)
    requires GoodCall(c, w1, w2) && 0 <= m < |c.hidden| && 0 <= k < w2.N && count <= c.topK
    requires forall u :: 0 <= u < c.Slots() ==> SecondCell(c, w1, w2, u, k) == 0.0
    ensures SumChoices(c, w1, w2, m, k, count) == 0.0
  {
    hide GoodCall, SecondCell;
    if count > 0 {
      RowMajorInRange(m, count - 1, |c.hidden|, c.topK);
      SumOfZeros(c, w1, w2, m, k, count - 1);
    }
  }

  /** W2's plain product of a slot routed to an expert of this rank, over W1's plain product of the slot's own
      token, taken through the activation and then the quantisation. */
  function SlotProduct(c: Call, w1: Weights, w2: Weights, t: int, k: int): real
    requires GoodCall(c, w1, w2) && 0 <= t < c.Slots() && 0 <= k < w2.N && c.routing[t] != -1
  {
    PlainDot(c.quantise(c.activation(seq(w1.N, n requires 0 <= n < w1.N =>
               PlainCell(c.hidden, w1, c.topK, c.routing, t, n)))),
             w2, c.routing[t], k, w2.K)
  }

  lemma OutputElement(c: Call, w1: Weights, w2: Weights, out: seq<real>, m: int, k: int)
    requires GoodCall(c, w1, w2) && HoldsOutput(c, w1, w2, out) && 0 <= m < |c.hidden| && 0 <= k < w2.N
    ensures 0 <= m * w2.N + k < |out| && out[m * w2.N + k] == SumChoices(c, w1, w2, m, k, c.topK)
  {
    hide GoodCall, SumChoices;
    RowMajorInRange(m, k, |c.hidden|, w2.N);
    assert OutputAt(c, w1, w2, out, m, k);
  }

  lemma CellOfSlot(c: Call, w1: Weights, w2: Weights, t: int, k: int)
    requires GoodCall(c, w1, w2) && 0 <= t < c.Slots() && 0 <= k < w2.N
    ensures SecondCell(c, w1, w2, t, k)
         == if c.routing[t] == -1 then 0.0
            else SlotProduct(c, w1, w2, t, k) * if c.weightOnInput then 1.0 else c.topkWeights[t]
  {
    hide Weights.Valid, Matrix, PlainDot, PlainCell;
  }

  /** The weight a slot enters the sum with. */
  function SlotWeight(c: Call, t: int): real
    requires |c.topkWeights| == c.Slots() && 0 <= t < c.Slots()
  {
    if c.weightOnInput then 1.0 else c.topkWeights[t]
  }

  /** Changing the routing weight of any one slot, where the input does not carry it already, moves exactly the
      output row of the slot's token, by the change times the slot's product. */
  lemma WeightMoves(c: Call, w1: Weights, w2: Weights, t: int, a: real, out: seq<real>, out': seq<real>, m: int, k: int)
    requires GoodCall(c, w1, w2) && !c.weightOnInput && 0 <= t < c.Slots() && 0 <= m < |c.hidden| && 0 <= k < w2.N
    requires HoldsOutput(c, w1, w2, out)
    requires var c' := c.(topkWeights := c.topkWeights[t := a]);
             GoodCall(c', w1, w2) && HoldsOutput(c', w1, w2, out')
    ensures 0 <= m * w2.N + k < |out| && m * w2.N + k < |out'|
    ensures out'[m * w2.N + k] - out[m * w2.N + k]
         == if m * c.topK <= t < m * c.topK + c.topK && c.routing[t] != -1 then
              (a - c.topkWeights[t]) * SlotProduct(c, w1, w2, t, k)
            else 0.0
  {
    hide GoodCall, HoldsOutput, SecondCell, SlotProduct;
    Sizes(c, w1, w2);
    var c' := c.(topkWeights := c.topkWeights[t := a]);
    OutputElement(c, w1, w2, out, m, k);
    OutputElement(c', w1, w2, out', m, k);
    forall u | 0 <= u < c.Slots() ensures u != t ==> SecondCell(c', w1, w2, u, k) == SecondCell(c, w1, w2, u, k) {
      CellOfSlot(c, w1, w2, u, k);
      CellOfSlot(c', w1, w2, u, k);
      SameProduct(c, c', w1, w2, u, k);
    }
    CellOfSlot(c, w1, w2, t, k);
    CellOfSlot(c', w1, w2, t, k);
    SameProduct(c, c', w1, w2, t, k);
    SumsDiffer(c, c', w1, w2, m, k, c.topK, t);
  }

  /** A slot's product depends on the tokens, the weights and the slot's own expert alone. */
  lemma SameProduct(c: Call, c': Call, w1: Weights, w2: Weights, t: int, k: int)
    requires GoodCall(c, w1, w2) && GoodCall(c', w1, w2) && 0 <= t < c.Slots() && 0 <= k < w2.N
    requires c'.hidden == c.hidden && c'.topK == c.topK && c'.routing[t] == c.routing[t]
    requires c'.activation == c.activation && c'.quantise == c.quantise
    ensures c.routing[t] != -1 ==> SlotProduct(c', w1, w2, t, k) == SlotProduct(c, w1, w2, t, k)
  {
    hide PlainDot, Weights.Valid;
    if c.routing[t] != -1 {
      assert seq(w1.N, n requires 0 <= n < w1.N => PlainCell(c.hidden, w1, c.topK, c.routing, t, n))
          == seq(w1.N, n requires 0 <= n < w1.N => PlainCell(c'.hidden, w1, c'.topK, c'.routing, t, n));
    }
  }

  /** Taking any one slot away from its expert lowers exactly the output row of the slot's token, by the slot's
      weighted product: every slot enters the sum of its own token, once. The alignment table may differ. */
  lemma SlotMoves(c: Call, c': Call, w1: Weights, w2: Weights, t: int, out: seq<real>, out': seq<real>, m: int, k: int)
    requires GoodCall(c, w1, w2) && GoodCall(c', w1, w2) && 0 <= t < c.Slots() && 0 <= m < |c.hidden| && 0 <= k < w2.N
    requires c.routing[t] != -1 && c' == c.(routing := c.routing[t := -1], align := c'.align)
    requires HoldsOutput(c, w1, w2, out) && HoldsOutput(c', w1, w2, out')
    ensures 0 <= m * w2.N + k < |out| && m * w2.N + k < |out'|
    ensures out[m * w2.N + k] - out'[m * w2.N + k]
         == if m * c.topK <= t < m * c.topK + c.topK then SlotProduct(c, w1, w2, t, k) * SlotWeight(c, t) else 0.0
  {
    hide GoodCall, HoldsOutput, SecondCell, SlotProduct;
    Sizes(c, w1, w2);
    OutputElement(c, w1, w2, out, m, k);
    OutputElement(c', w1, w2, out', m, k);
    forall u | 0 <= u < c.Slots() && u != t ensures SecondCell(c', w1, w2, u, k) == SecondCell(c, w1, w2, u, k) {
      CellOfSlot(c, w1, w2, u, k);
      CellOfSlot(c', w1, w2, u, k);
      SameProduct(c, c', w1, w2, u, k);
    }
    CellOfSlot(c, w1, w2, t, k);
    CellOfSlot(c', w1, w2, t, k);
    SumsDiffer(c, c', w1, w2, m, k, c.topK, t);
  }

  lemma Sizes(c: Call, w1: Weights, w2: Weights)
    requires GoodCall(c, w1, w2)
    ensures |c.topkWeights| == |c.routing| == c.Slots()
  {
  }

  /** The output is zero where no slot of any token contributes. With the two lemmas above this fixes every
      element of the output. */
  lemma NothingContributes(c: Call, w1: Weights, w2: Weights, out: seq<real>, m: int, k: int)
    requires GoodCall(c, w1, w2) && HoldsOutput(c, w1, w2, out) && 0 <= m < |c.hidden| && 0 <= k < w2.N
    requires forall t :: 0 <= t < c.Slots() ==> c.routing[t] == -1 || (!c.weightOnInput && c.topkWeights[t] == 0.0)
    ensures 0 <= m * w2.N + k < |out| && out[m * w2.N + k] == 0.0
  {
    hide GoodCall, HoldsOutput, SecondCell, SlotProduct;
    OutputElement(c, w1, w2, out, m, k);
    forall t | 0 <= t < c.Slots() ensures SecondCell(c, w1, w2, t, k) == 0.0 {
      CellOfSlot(c, w1, w2, t, k);
    }
    SumOfZeros(c, w1, w2, m, k, c.topK);
  }
}
