/**
 * Provider colours of the chart module: a fixed six-entry table from a
 * provider name to a brand colour, and a grey fallback for every other name.
 */
module ProviderColors {

  /** The colour used for any provider that is not in the table. */
  const Fallback: string := "#6B7280"

  /** The fixed brand colours, keyed by provider name. */
  const Table: map<string, string> := map[
    "Anthropic" := "#D97757",
    "OpenAI"    := "#10A37F",
    "Google"    := "#4285F4",
    "Meta"      := "#0668E1",
    "DeepSeek"  := "#536DFE",
    "Mistral"   := "#F97316"
  ]

  predicate IsHexDigit(c: char) {
    '0' <= c <= '9' || 'A' <= c <= 'F' || 'a' <= c <= 'f'
  }

  /** A CSS colour of the form `#RRGGBB`. */
  predicate IsHexColor(c: string) {
    |c| == 7 && c[0] == '#' && forall i :: 1 <= i < 7 ==> IsHexDigit(c[i])
  }

  /**
   * The colour of `provider`. The table lookup is combined with the fallback
   * by JavaScript's `||`, so a missing entry and an empty entry both give grey.
   */
  function ColorOf(provider: string): (c: string)
    ensures IsHexColor(c)
    ensures provider in Table ==> c == Table[provider]
    ensures provider !in Table ==> c == Fallback
  {
    var entry := if provider in Table then Table[provider] else "";
    if entry != "" then entry else Fallback
  }

  /** Each of the six known providers gets its own brand colour. */
  lemma KnownProviderColors()
    ensures ColorOf("Anthropic") == "#D97757"
    ensures ColorOf("OpenAI") == "#10A37F"
    ensures ColorOf("Google") == "#4285F4"
    ensures ColorOf("Meta") == "#0668E1"
    ensures ColorOf("DeepSeek") == "#536DFE"
    ensures ColorOf("Mistral") == "#F97316"
  {
  }

  /**
   * The colour tells the providers apart: known providers get pairwise
   * distinct colours, and none of them is the fallback grey.
   */
  lemma ColorsDistinguishProviders(p: string, q: string)
    ensures p in Table && q in Table && p != q ==> ColorOf(p) != ColorOf(q)
    ensures p in Table ==> ColorOf(p) != Fallback
    ensures ColorOf(p) == Fallback <==> p !in Table
  {
  }
}
