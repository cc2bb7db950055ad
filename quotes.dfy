/**
 * The `GET /api/quote` handler of server.js: one entry of a fixed list,
 * picked with a random number in [0, 1). The random number is an input, and
 * it is a real number here, not a double.
 */
module Quotes {

  const QUOTES: seq<string> := [
    "Jangan menyerah \U{2014} langkah kecil hari ini adalah kemenangan besar esok.",
    "Kesuksesan datang kepada mereka yang tak takut mencoba lagi.",
    "Dream big. Work hard. Stay humble.",
    "Belajar dari kemarin, hidup untuk hari ini, berharap untuk besok.",
    "Kerja keras + konsistensi = hasil."
  ]

  /** `Math.floor(random * QUOTES.length)` */
  function QuoteIndex(random: real): (i: int)
    requires 0.0 <= random < 1.0
    ensures 0 <= i < |QUOTES|
  {
    (random * |QUOTES| as real).Floor
  }

  /** The quote answered for a given random number: always an entry of the list. */
  function PickQuote(random: real): (q: string)
    requires 0.0 <= random < 1.0
    ensures q in QUOTES
  {
    QUOTES[QuoteIndex(random)]
  }

  /**
   * Entry `i` is picked exactly for the random numbers in
   * [i / 5, (i + 1) / 5): five intervals of equal length covering [0, 1), so a
   * uniform random number picks every entry with probability 1/5.
   */
  lemma PickedInterval(random: real, i: int)
    requires 0.0 <= random < 1.0
    requires 0 <= i < |QUOTES|
    ensures QuoteIndex(random) == i <==> i as real / 5.0 <= random < (i + 1) as real / 5.0
  {
  }
}
