/** What a song card shows of its statistics: the gradient picked by the
    average, the vote count with its noun, and the average with one decimal
    or a dash when there is none. */
module Dashboard {
  import opened Ratings

  const Excellent := "from-emerald-500 to-teal-500"
  const Good := "from-cyan-500 to-blue-500"
  const Fair := "from-yellow-500 to-orange-500"
  const Poor := "from-red-500 to-pink-500"

  /** The gradients from the lowest band to the highest. */
  const Gradients := [Poor, Fair, Good, Excellent]

  /** The band of a rating: how many of the thresholds 4, 6 and 8 it reaches. */
  function Band(rating: real): (b: nat)
    ensures b < |Gradients|
  {
    (if rating >= 4.0 then 1 else 0) + (if rating >= 6.0 then 1 else 0) + (if rating >= 8.0 then 1 else 0)
  }

  /** `getRatingColor`: the thresholds tried from the top down. The result is
      the gradient of the rating's band, and each gradient is chosen exactly
      on its half-open range. */
  function RatingColor(rating: real): (c: string)
    ensures c == Gradients[Band(rating)]
    ensures c == Excellent <==> rating >= 8.0
    ensures c == Good <==> 6.0 <= rating < 8.0
    ensures c == Fair <==> 4.0 <= rating < 6.0
    ensures c == Poor <==> rating < 4.0
  {
    if rating >= 8.0 then Excellent
    else if rating >= 6.0 then Good
    else if rating >= 4.0 then Fair
    else Poor
  }

  /** A higher average never gets a lower gradient. */
  lemma RatingColorMonotone(a: real, b: real)
    requires a <= b
    ensures Band(a) <= Band(b)
    ensures RatingColor(a) == Gradients[Band(a)] && RatingColor(b) == Gradients[Band(b)]
  {
  }

  /** On a song's statistics the gradient depends only on the integer tenths:
      80 and above, 60 and above, 40 and above. */
  lemma StatsColor(st: Stats)
    ensures RatingColor(st.AverageRating()) == Excellent <==> st.averageTenths >= 80
    ensures RatingColor(st.AverageRating()) == Good <==> 60 <= st.averageTenths < 80
    ensures RatingColor(st.AverageRating()) == Fair <==> 40 <= st.averageTenths < 60
    ensures RatingColor(st.AverageRating()) == Poor <==> st.averageTenths < 40
  {
    var t := st.averageTenths;
    assert st.AverageRating() >= 8.0 <==> t >= 80;
    assert st.AverageRating() >= 6.0 <==> t >= 60;
    assert st.AverageRating() >= 4.0 <==> t >= 40;
  }

  // ---------------------------------------------------------------------------
  // Numbers as text

  function Digit(d: nat): (c: char)
    requires d < 10
    ensures '0' <= c <= '9'
  {
    ('0' as int + d) as char
  }

  function DigitValue(c: char): (d: nat)
    requires '0' <= c <= '9'
    ensures d < 10 && Digit(d) == c
  {
    (c as int - '0' as int)
  }

  predicate AllDigits(s: string) {
    forall k :: 0 <= k < |s| ==> '0' <= s[k] <= '9'
  }

  /** Decimal text of a natural number, as JavaScript prints it. */
  function NatToString(n: nat): (s: string)
    ensures s != [] && AllDigits(s)
    ensures s[0] == '0' ==> s == "0"
  {
    if n < 10 then [Digit(n)] else NatToString(n / 10) + [Digit(n % 10)]
  }

  /** The value of a string of decimal digits. */
  function ParseNat(s: string): nat
    requires AllDigits(s)
  {
    if s == [] then 0 else 10 * ParseNat(s[..|s| - 1]) + DigitValue(s[|s| - 1])
  }

  lemma {:induction false} ParseNatToString(n: nat)
    ensures ParseNat(NatToString(n)) == n
    decreases n
  {
    var s := NatToString(n);
    if n < 10 {
      assert s[..0] == [];
      assert DigitValue(Digit(n)) == n;
    } else {
      ParseNatToString(n / 10);
      assert s[..|s| - 1] == NatToString(n / 10);
      assert DigitValue(Digit(n % 10)) == n % 10;
    }
  }

  // ---------------------------------------------------------------------------
  // The card text

  /** `{totalVotes} vote{totalVotes !== 1 ? 's' : ''}`. */
  function VoteCountText(totalVotes: nat): (s: string)
    ensures |s| > |NatToString(totalVotes)| && s[..|NatToString(totalVotes)|] == NatToString(totalVotes)
    ensures s[|s| - 1] == 's' <==> totalVotes != 1
  {
    NatToString(totalVotes) + " vote" + (if totalVotes != 1 then "s" else "")
  }

  /** The count at the front of the text reads back as the number of votes. */
  lemma VoteCountTextReadsBack(totalVotes: nat)
    ensures var s := VoteCountText(totalVotes);
      ParseNat(s[..|NatToString(totalVotes)|]) == totalVotes
  {
    ParseNatToString(totalVotes);
  }

  const NoAverage := "—"

  /** `averageRating > 0 ? averageRating.toFixed(1) : '—'`. The average is a
      whole number of tenths, so the one-decimal text is exact. */
  function AverageText(st: Stats): (s: string)
    ensures s == NoAverage <==> st.averageTenths <= 0
    ensures st.averageTenths > 0 ==> |s| >= 3 && s[|s| - 2] == '.' && AllDigits(s[..|s| - 2]) && '0' <= s[|s| - 1] <= '9'
  {
    if st.AverageRating() > 0.0 then
      var t := st.averageTenths;
      NatToString(t / 10) + "." + [Digit(t % 10)]
    else NoAverage
  }

  /** The shown average reads back as the stored number of tenths. */
  lemma AverageTextReadsBack(st: Stats)
    requires st.averageTenths > 0
    ensures var s := AverageText(st);
      10 * ParseNat(s[..|s| - 2]) + DigitValue(s[|s| - 1]) == st.averageTenths
  {
    var t := st.averageTenths;
    var s := AverageText(st);
    assert s[..|s| - 2] == NatToString(t / 10);
    ParseNatToString(t / 10);
  }
}
