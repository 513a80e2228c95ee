/**
 Receipt numbers `R-yyyyMMdd-HHmmss-NNNN`: the UTC date and time of the
 checkout followed by a random four-digit suffix. Both the clock reading and
 the random draw are parameters.
 */
module Receipt {
  import opened Text
  import opened Clock
  import opened Results

  /** Inclusive lower and exclusive upper bound passed to `Random.Next`. */
  const SuffixMin: int := 1000
  const SuffixBound: int := 9999

  /** `Random.Next(minValue, maxValue)`: some value of `[minValue, maxValue)`,
      picked by an opaque draw. The upper bound is exclusive. */
  function RandomNext(draw: nat, minValue: int, maxValue: int): (r: int)
    requires minValue < maxValue
    ensures minValue <= r < maxValue
  {
    minValue + draw % (maxValue - minValue)
  }

  /** Every value of the range can come out of some draw. */
  lemma RandomNextCoversRange(minValue: int, maxValue: int, v: int)
    requires minValue <= v < maxValue
    ensures exists draw: nat :: RandomNext(draw, minValue, maxValue) == v
  {
    var draw: nat := v - minValue;
    assert RandomNext(draw, minValue, maxValue) == v;
  }

  /** `$"R-{t:yyyyMMdd-HHmmss}-{suffix}"`. */
  function FormatReceipt(t: DateTime, suffix: nat): string
    requires Valid(t)
  {
    "R-" + PadDigits(t.year, 4) + PadDigits(t.month, 2) + PadDigits(t.day, 2)
    + "-" + PadDigits(t.hour, 2) + PadDigits(t.minute, 2) + PadDigits(t.second, 2)
    + "-" + NatToString(suffix)
  }

  /** The shape of a receipt number: `R-`, eight date digits, `-`, six time
      digits, `-`, and a four-digit suffix in `[1000, 9998]`. */
  predicate IsReceiptNo(s: string) {
    && |s| == 22
    && s[0] == 'R' && s[1] == '-' && s[10] == '-' && s[17] == '-'
    && AllDigits(s[2..6]) && AllDigits(s[6..8]) && AllDigits(s[8..10])
    && AllDigits(s[11..13]) && AllDigits(s[13..15]) && AllDigits(s[15..17])
    && AllDigits(s[18..22])
    && SuffixMin <= ParseDigits(s[18..22]) < SuffixBound
  }

  datatype ReceiptFields = ReceiptFields(time: DateTime, suffix: nat)

  /** Reads the time and suffix back out of a receipt number. */
  function ParseReceipt(s: string): (r: Option<ReceiptFields>)
    ensures r.Some? <==> IsReceiptNo(s)
  {
    if !IsReceiptNo(s) then None
    else
      Some(ReceiptFields(
        DateTime(ParseDigits(s[2..6]), ParseDigits(s[6..8]), ParseDigits(s[8..10]),
                 ParseDigits(s[11..13]), ParseDigits(s[13..15]), ParseDigits(s[15..17])),
        ParseDigits(s[18..22])))
  }

  /** `NewReceiptNo()` with the clock reading `now` and the random draw
      `draw`: a well-formed receipt number that carries `now` to the second
      and a suffix in `[1000, 9998]`. */
  function NewReceiptNo(now: DateTime, draw: nat): (r: string)
    requires Valid(now)
    ensures IsReceiptNo(r)
    ensures ParseReceipt(r).Some? && ParseReceipt(r).value.time == now
    ensures SuffixMin <= ParseReceipt(r).value.suffix <= 9998
  {
    var suffix := RandomNext(draw, SuffixMin, SuffixBound);
    ReceiptRoundTrip(now, suffix);
    FormatReceipt(now, suffix)
  }

  /** The three dash-separated parts of a formatted receipt number. */
  lemma ReceiptParts(t: DateTime, suffix: nat)
    requires Valid(t) && SuffixMin <= suffix < SuffixBound
    ensures var s := FormatReceipt(t, suffix);
      && |s| == 22
      && s[..10] == "R-" + PadDigits(t.year, 4) + PadDigits(t.month, 2) + PadDigits(t.day, 2)
      && s[10..17] == "-" + PadDigits(t.hour, 2) + PadDigits(t.minute, 2) + PadDigits(t.second, 2)
      && s[17..] == "-" + PadDigits(suffix, 4)
  {
    NatToStringFourDigits(suffix);
    var date := "R-" + PadDigits(t.year, 4) + PadDigits(t.month, 2) + PadDigits(t.day, 2);
    var time := "-" + PadDigits(t.hour, 2) + PadDigits(t.minute, 2) + PadDigits(t.second, 2);
    var tail := "-" + PadDigits(suffix, 4);
    assert FormatReceipt(t, suffix) == date + time + tail;
  }

  lemma FourFields(s: string, a: string, b: string, c: string, d: string)
    requires s == a + b + c + d
    ensures s[|a|..|a| + |b|] == b
    ensures s[|a| + |b|..|a| + |b| + |c|] == c
    ensures s[|a| + |b| + |c|..] == d
  {
  }

  /** Where each field of a formatted receipt number sits. */
  lemma ReceiptSlices(t: DateTime, suffix: nat)
    requires Valid(t) && SuffixMin <= suffix < SuffixBound
    ensures var s := FormatReceipt(t, suffix);
      && |s| == 22 && s[0] == 'R' && s[1] == '-' && s[10] == '-' && s[17] == '-'
      && s[2..6] == PadDigits(t.year, 4) && s[6..8] == PadDigits(t.month, 2)
      && s[8..10] == PadDigits(t.day, 2) && s[11..13] == PadDigits(t.hour, 2)
      && s[13..15] == PadDigits(t.minute, 2) && s[15..17] == PadDigits(t.second, 2)
      && s[18..22] == PadDigits(suffix, 4)
  {
    var s := FormatReceipt(t, suffix);
    ReceiptParts(t, suffix);
    FourFields(s[..10], "R-", PadDigits(t.year, 4), PadDigits(t.month, 2), PadDigits(t.day, 2));
    FourFields(s[10..17], "-", PadDigits(t.hour, 2), PadDigits(t.minute, 2), PadDigits(t.second, 2));
    assert s[2..6] == s[..10][2..6];
    assert s[6..8] == s[..10][6..8];
    assert s[8..10] == s[..10][8..10];
    assert s[11..13] == s[10..17][1..3];
    assert s[13..15] == s[10..17][3..5];
    assert s[15..17] == s[10..17][5..7];
    assert s[18..22] == s[17..][1..];
    assert s[0] == s[..10][0] && s[1] == s[..10][1];
    assert s[10] == s[10..17][0] && s[17] == s[17..][0];
  }

  /** Formatting a valid time and a four-digit suffix and parsing the result
      gives both back. */
  lemma ReceiptRoundTrip(t: DateTime, suffix: nat)
    requires Valid(t) && SuffixMin <= suffix < SuffixBound
    ensures IsReceiptNo(FormatReceipt(t, suffix))
    ensures ParseReceipt(FormatReceipt(t, suffix)) == Some(ReceiptFields(t, suffix))
  {
    ReceiptSlices(t, suffix);
    ParsePadDigits(t.year, 4);
    ParsePadDigits(t.month, 2);
    ParsePadDigits(t.day, 2);
    ParsePadDigits(t.hour, 2);
    ParsePadDigits(t.minute, 2);
    ParsePadDigits(t.second, 2);
    ParsePadDigits(suffix, 4);
  }

  /** Two checkouts in different seconds, or with different suffixes, get
      different receipt numbers. */
  lemma ReceiptNoInjective(t: DateTime, u: DateTime, drawT: nat, drawU: nat)
    requires Valid(t) && Valid(u)
    requires t != u || RandomNext(drawT, SuffixMin, SuffixBound) != RandomNext(drawU, SuffixMin, SuffixBound)
    ensures NewReceiptNo(t, drawT) != NewReceiptNo(u, drawU)
  {
    ReceiptRoundTrip(t, RandomNext(drawT, SuffixMin, SuffixBound));
    ReceiptRoundTrip(u, RandomNext(drawU, SuffixMin, SuffixBound));
  }
}
