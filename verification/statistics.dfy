/** The running check counters (main.py, `Statistics`) and the console title
    computed from them. */
module Stats {
  import opened Text
  import TitleEscape

  /** The four counters. They start at zero and are only ever incremented, so
      they are modelled as natural numbers. */
  datatype Statistics = Statistics(
    totalChecks: nat,
    inStockCount: nat,
    outOfStockCount: nat,
    errorCount: nat)

  /** `Statistics()` with the dataclass defaults. */
  const Zero: Statistics := Statistics(0, 0, 0, 0)

  /** Every check is counted once under exactly one of the three outcomes. */
  predicate Consistent(st: Statistics) {
    st.totalChecks == st.inStockCount + st.outOfStockCount + st.errorCount
  }

  /** The title text before escaping. */
  function Title(st: Statistics): string {
    "AirUp Checker | No Stock: " + NatToString(st.outOfStockCount)
    + " | Stock: " + NatToString(st.inStockCount)
  }

  /** A numeral contains no character the escaping touches. */
  lemma NumeralIsPlain(n: nat)
    ensures TitleEscape.Plain(NatToString(n))
  {
    var d := NatToString(n);
    forall i | 0 <= i < |d|
      ensures d[i] !in TitleEscape.Specials
    {
      assert IsDigit(d[i]);
    }
  }

  /** The title is plain text around its two `|` separators ... */
  lemma TitleAroundPipes(st: Statistics)
    ensures Title(st)
            == "AirUp Checker " + "|" + (" No Stock: " + NatToString(st.outOfStockCount) + " ")
               + "|" + (" Stock: " + NatToString(st.inStockCount))
  {
  }

  /** ... whenever the two numerals are plain ... */
  lemma TitlePartsPlain(out: string, stock: string)
    requires TitleEscape.Plain(out) && TitleEscape.Plain(stock)
    ensures TitleEscape.Plain("AirUp Checker ")
    ensures TitleEscape.Plain(" No Stock: " + out + " ")
    ensures TitleEscape.Plain(" Stock: " + stock)
  {
  }

  /** ... so escaping puts a caret before each separator and nothing else. */
  lemma EscapedParts(out: string, stock: string)
    ensures "AirUp Checker " + "^|" + (" No Stock: " + out + " ") + "^|" + (" Stock: " + stock)
            == "AirUp Checker ^| No Stock: " + out + " ^| Stock: " + stock
  {
  }

  /** The string `update_title` hands to the shell: the two separators become `^|`
      and the counters pass through unchanged. */
  function EscapedTitle(st: Statistics): (r: string)
    ensures r == "AirUp Checker ^| No Stock: " + NatToString(st.outOfStockCount)
                 + " ^| Stock: " + NatToString(st.inStockCount)
  {
    var out, stock := NatToString(st.outOfStockCount), NatToString(st.inStockCount);
    TitleAroundPipes(st);
    NumeralIsPlain(st.outOfStockCount);
    NumeralIsPlain(st.inStockCount);
    TitlePartsPlain(out, stock);
    TitleEscape.EscapeTwoPipes("AirUp Checker ", " No Stock: " + out + " ", " Stock: " + stock);
    EscapedParts(out, stock);
    TitleEscape.Escape(Title(st))
  }
}
