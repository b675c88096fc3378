/** Token counting: the exact count from an optional tokenizer, the length
    heuristic, and the choice between them. */
module Estimator {

  /** The tokenizer library as the program sees it: either it could not be
      imported, or it encodes a text into a sequence of token ids. */
  datatype Tokenizer = Unavailable | Available(encode: string -> seq<int>)

  /** `count_tokens`: the number of tokens, or the sentinel -1 when no
      tokenizer is available. */
  function CountTokens(tokenizer: Tokenizer, text: string): (n: int)
    ensures n < 0 <==> tokenizer.Unavailable?
    ensures n < 0 ==> n == -1
    ensures tokenizer.Available? ==> n == |tokenizer.encode(text)|
  {
    match tokenizer
    case Unavailable => -1
    case Available(encode) => |encode(text)|
  }

  /** The rough estimate, a quarter of the text's length rounded down: the largest count whose four
      characters per token still fit in the text. */
  function ApproxTokens(text: string): (n: nat)
    ensures 4 * n <= |text| < 4 * n + 4
    ensures n <= |text|
  {
    |text| / 4
  }

  /** The reported token figure, marked exact or approximate. */
  datatype Estimate = Exact(count: nat) | Approximate(count: nat)

  /** The strategy choice after `count_tokens`: a non-negative count is
      reported as is, a negative one falls back to the estimate. */
  function ChooseEstimate(text: string, counted: int): (e: Estimate)
    ensures e.Approximate? <==> counted < 0
    ensures e.Exact? ==> e.count == counted
    ensures e.Approximate? ==> 4 * e.count <= |text| < 4 * e.count + 4
  {
    if counted >= 0 then Exact(counted) else Approximate(ApproxTokens(text))
  }

  /** The estimate under a tokenizer: exact exactly when one is available. */
  function EstimateTokens(tokenizer: Tokenizer, text: string): (e: Estimate)
    ensures e.Exact? <==> tokenizer.Available?
    ensures tokenizer.Available? ==> e.count == |tokenizer.encode(text)|
    ensures e.Approximate? ==> e.count <= |text| && 4 * e.count <= |text| < 4 * e.count + 4
  {
    ChooseEstimate(text, CountTokens(tokenizer, text))
  }

  /** The fallback gives 1 for a four-character text and for a
      seven-character one, since the division rounds down. */
  lemma ApproxExamples(seven: string)
    requires |seven| == 7
    ensures ApproxTokens("test") == 1
    ensures ApproxTokens(seven) == 1
  {
  }

  /** A longer text never gets a smaller estimate. */
  lemma ApproxMonotone(a: string, b: string)
    requires |a| <= |b|
    ensures ApproxTokens(a) <= ApproxTokens(b)
  {
  }
}
