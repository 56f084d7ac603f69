/** `calc_ppl_batch` as written. The model is called with `labels=input_ids`,
    so `loss[0]` is one number, the mean token loss of the whole padded batch.
    Each phrase's corrected loss multiplies its attention mask (first token
    dropped) by that number and divides by the mask's sum. That gives every
    phrase of a batch the same perplexity, so a pairwise rule such as
    danetqa's compares two batches, not two phrases. The rest of the
    perplexity baseline is modelled with the per-phrase scorer the code
    evidently intends (see `RsgPointwise`). */
module RsgBatchLoss {
  import opened Wrappers

  /** The number of tokens a mask row counts. */
  function Total(mask: seq<nat>): (r: nat)
    ensures mask == [] ==> r == 0
    ensures forall j :: 0 <= j < |mask| ==> mask[j] <= r
    decreases |mask|
  {
    if mask == [] then 0 else Total(mask[..|mask| - 1]) + mask[|mask| - 1]
  }

  /** `mask * loss` for one row, summed. */
  function ScaledSum(mask: seq<nat>, loss: real): real
    decreases |mask|
  {
    if mask == [] then 0.0 else ScaledSum(mask[..|mask| - 1], loss) + (mask[|mask| - 1] as real) * loss
  }

  lemma {:induction false} ScaledSumIsProduct(mask: seq<nat>, loss: real)
    ensures ScaledSum(mask, loss) == (Total(mask) as real) * loss
    decreases |mask|
  {
    if mask != [] {
      ScaledSumIsProduct(mask[..|mask| - 1], loss);
    }
  }

  /** `mask[1:]`: a row without its first token. */
  function DropFirst(mask: seq<nat>): (r: seq<nat>)
    ensures |r| == if mask == [] then 0 else |mask| - 1
  {
    if mask == [] then [] else mask[1..]
  }

  /** One row of `corrected_loss`: the masked sum over the mask's total.
      A phrase of a single token has an empty mask and `0/0` is `nan`, here `None`. */
  function RowLoss(mask: seq<nat>, loss: real): (r: Option<real>)
    ensures r.None? <==> Total(DropFirst(mask)) == 0
    ensures r.Some? ==> r.value == loss
  {
    var m := DropFirst(mask);
    ScaledSumIsProduct(m, loss);
    if Total(m) == 0 then None else Some(ScaledSum(m, loss) / (Total(m) as real))
  }

  /** `calc_ppl_batch` as written, given the padded batch's attention masks and
      the batch loss `loss[0]`; `exp` is `torch.exp`. Every phrase of more than
      one token gets the perplexity of the batch loss, whatever its own text. */
  function CalcPplBatch(masks: seq<seq<nat>>, loss: real, exp: real -> real): (r: seq<Option<real>>)
    ensures |r| == |masks|
    ensures forall i :: 0 <= i < |masks| ==>
      r[i] == if Total(DropFirst(masks[i])) == 0 then None else Some(exp(loss))
  {
    seq(|masks|, i requires 0 <= i < |masks| => PhrasePpl(masks[i], loss, exp))
  }

  /** `torch.exp` of one row of `corrected_loss`. */
  function PhrasePpl(mask: seq<nat>, loss: real, exp: real -> real): (r: Option<real>)
    ensures r == if Total(DropFirst(mask)) == 0 then None else Some(exp(loss))
  {
    match RowLoss(mask, loss)
    case None => None
    case Some(l) => Some(exp(l))
  }

  /** `a < b` on two perplexities; a comparison with `nan` is false. */
  predicate Less(a: Option<real>, b: Option<real>) {
    a.Some? && b.Some? && a.value < b.value
  }

  /** The phrases of one danetqa batch, each question followed by `suffix`. */
  function Suffixed(questions: seq<string>, suffix: string): (r: seq<string>)
    ensures |r| == |questions|
    ensures forall i :: 0 <= i < |questions| ==> r[i] == questions[i] + suffix
  {
    seq(|questions|, i requires 0 <= i < |questions| => questions[i] + suffix)
  }

  /** `danetqa_process_items` on one batch as written: `yes_batch` and
      `no_batch` are scored by `calc_ppl_batch`, and each question's label is
      "true" when its " Да" perplexity is below its " Нет" perplexity.
      `lossOf` is the model's batch loss and `masksOf` the tokenizer's masks. */
  function DanetqaBatch(questions: seq<string>, lossOf: seq<string> -> real,
                        masksOf: seq<string> -> seq<seq<nat>>, exp: real -> real): (r: seq<string>)
    requires |masksOf(Suffixed(questions, " Да"))| == |questions|
    requires |masksOf(Suffixed(questions, " Нет"))| == |questions|
    ensures |r| == |questions|
  {
    var yes := Suffixed(questions, " Да");
    var no := Suffixed(questions, " Нет");
    var yesPpl := CalcPplBatch(masksOf(yes), lossOf(yes), exp);
    var noPpl := CalcPplBatch(masksOf(no), lossOf(no), exp);
    seq(|questions|, i requires 0 <= i < |questions| => if Less(yesPpl[i], noPpl[i]) then "true" else "false")
  }

  /** As written, every question of a batch whose phrases have more than one
      token gets the same label: the label says which of the two batches has
      the lower mean loss, not which answer suits the question. */
  lemma DanetqaBatchMatesAgree(questions: seq<string>, lossOf: seq<string> -> real,
                               masksOf: seq<string> -> seq<seq<nat>>, exp: real -> real, i: nat, j: nat)
    requires |masksOf(Suffixed(questions, " Да"))| == |questions|
    requires |masksOf(Suffixed(questions, " Нет"))| == |questions|
    requires forall k :: 0 <= k < |questions| ==>
      Total(DropFirst(masksOf(Suffixed(questions, " Да"))[k])) > 0 &&
      Total(DropFirst(masksOf(Suffixed(questions, " Нет"))[k])) > 0
    requires i < |questions| && j < |questions|
    ensures DanetqaBatch(questions, lossOf, masksOf, exp)[i] == DanetqaBatch(questions, lossOf, masksOf, exp)[j]
  {
  }

  /** The labels danetqa evidently intends, each question by its own perplexities
      (`RsgPointwise.DanetqaGetAnswer`). */
  function DanetqaIntended(questions: seq<string>, ppl: string -> real): (r: seq<string>)
    ensures |r| == |questions|
    ensures forall i :: 0 <= i < |questions| ==>
      r[i] == if ppl(questions[i] + " Да") < ppl(questions[i] + " Нет") then "true" else "false"
  {
    seq(|questions|, i requires 0 <= i < |questions| =>
      if ppl(questions[i] + " Да") < ppl(questions[i] + " Нет") then "true" else "false")
  }

  /** Two questions batched together (any batch size of 2 or more), the first
      better answered " Да" and the second " Нет" by their own perplexities:
      whatever the model's batch loss, the labels as written differ from the
      intended ones. */
  lemma DanetqaLossDiscrepancy(q1: string, q2: string, ppl: string -> real, lossOf: seq<string> -> real,
                               masksOf: seq<string> -> seq<seq<nat>>, exp: real -> real)
    requires |masksOf(Suffixed([q1, q2], " Да"))| == 2 && |masksOf(Suffixed([q1, q2], " Нет"))| == 2
    requires forall k :: 0 <= k < 2 ==>
      Total(DropFirst(masksOf(Suffixed([q1, q2], " Да"))[k])) > 0 &&
      Total(DropFirst(masksOf(Suffixed([q1, q2], " Нет"))[k])) > 0
    requires ppl(q1 + " Да") < ppl(q1 + " Нет")
    requires ppl(q2 + " Нет") <= ppl(q2 + " Да")
    ensures DanetqaIntended([q1, q2], ppl) == ["true", "false"]
    ensures DanetqaBatch([q1, q2], lossOf, masksOf, exp) != DanetqaIntended([q1, q2], ppl)
  {
    var r := DanetqaBatch([q1, q2], lossOf, masksOf, exp);
    var want := DanetqaIntended([q1, q2], ppl);
    DanetqaBatchMatesAgree([q1, q2], lossOf, masksOf, exp, 0, 1);
    assert want[0] == "true" && want[1] == "false";
    assert r[0] == r[1];
  }
}
