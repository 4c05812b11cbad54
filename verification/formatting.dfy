/**
  The display formatters. `Intl.NumberFormat` (locale data, compact notation,
  floating-point rounding) is not modelled: a `NumberFormat` value supplies its
  output. What the handler does to that output is modelled: it upper-cases
  the first `k` and then the first `m`, and it appends the reward unit.
*/
module Formatting {

  /**
    What `Intl.NumberFormat("en-US", …).format(n)` returns in compact notation
    with at most `digits` fraction digits: `currency` with the USD currency
    style, `number` without it.
  */
  datatype NumberFormat = NumberFormat(currency: (real, nat) -> string, number: (real, nat) -> string)

  const RewardUnit: string := " SOMI"

  /** The occurrences of `c` in `s` are at most one. */
  predicate AtMostOnce(s: string, c: char) {
    forall i, j :: 0 <= i < |s| && 0 <= j < |s| && s[i] == c && s[j] == c ==> i == j
  }

  /** Position `i` holds the first occurrence of `c` in `s`. */
  predicate FirstAt(s: string, i: int, c: char) {
    0 <= i < |s| && s[i] == c && c !in s[..i]
  }

  /**
    `r` is `raw` with its first `k` turned into `K` and its first `m` into
    `M`, every other character kept.
  */
  predicate SuffixesUpper(raw: string, r: string) {
    && |r| == |raw|
    && forall i :: 0 <= i < |raw| ==>
         r[i] == (if FirstAt(raw, i, 'k') then 'K' else if FirstAt(raw, i, 'm') then 'M' else raw[i])
  }

  /**
    `s.replace(a, b)` with a one-character string pattern: only the first
    occurrence of `a` is replaced.
  */
  function ReplaceFirst(s: string, a: char, b: char): (r: string)
    ensures |r| == |s|
    ensures a !in s ==> r == s
    ensures a in s ==> exists i :: 0 <= i < |s| && s[i] == a && a !in s[..i] && r == s[i := b]
  {
    if |s| == 0 then []
    else if s[0] == a then [b] + s[1..]
    else
      var rest := ReplaceFirst(s[1..], a, b);
      ReplaceFirstCons(s, a, b, rest);
      [s[0]] + rest
  }

  /** A leading character other than `a` is kept, and the replacement happens in the tail. */
  lemma ReplaceFirstCons(s: string, a: char, b: char, rest: string)
    requires 0 < |s| && s[0] != a
    requires |rest| == |s| - 1
    requires a !in s[1..] ==> rest == s[1..]
    requires a in s[1..] ==> exists i :: 0 <= i < |s[1..]| && s[1..][i] == a && a !in s[1..][..i] && rest == s[1..][i := b]
    ensures |[s[0]] + rest| == |s|
    ensures a !in s ==> [s[0]] + rest == s
    ensures a in s ==> exists i :: 0 <= i < |s| && s[i] == a && a !in s[..i] && [s[0]] + rest == s[i := b]
  {
    assert s == [s[0]] + s[1..];
    if a in s {
      assert a in s[1..];
      var i :| 0 <= i < |s[1..]| && s[1..][i] == a && a !in s[1..][..i] && rest == s[1..][i := b];
      assert s[..i + 1] == [s[0]] + s[1..][..i];
      assert [s[0]] + rest == s[i + 1 := b];
    }
  }

  /**
    `.replace("k", "K").replace("m", "M")`: the first `k` and the first `m`
    of the locale output upper-cased. A locale output naming its magnitude
    suffix once is left with no lower-case suffix.
  */
  function UpperSuffixes(raw: string): (r: string)
    ensures SuffixesUpper(raw, r)
    ensures AtMostOnce(raw, 'k') && AtMostOnce(raw, 'm') ==> 'k' !in r && 'm' !in r
  {
    ChainedReplaceFirst(raw);
    CompactSuffixesUpper(raw);
    ReplaceFirst(ReplaceFirst(raw, 'k', 'K'), 'm', 'M')
  }

  /** `compactCurrency(n, digits)`: the USD compact output with upper-case suffixes. */
  function CompactCurrency(fmt: NumberFormat, n: real, digits: nat): (r: string)
    ensures SuffixesUpper(fmt.currency(n, digits), r)
    ensures AtMostOnce(fmt.currency(n, digits), 'k') && AtMostOnce(fmt.currency(n, digits), 'm') ==>
      'k' !in r && 'm' !in r
  {
    UpperSuffixes(fmt.currency(n, digits))
  }

  /** `compactNumber(n, digits)`: the plain compact output with upper-case suffixes. */
  function CompactNumber(fmt: NumberFormat, n: real, digits: nat): (r: string)
    ensures SuffixesUpper(fmt.number(n, digits), r)
    ensures AtMostOnce(fmt.number(n, digits), 'k') && AtMostOnce(fmt.number(n, digits), 'm') ==>
      'k' !in r && 'm' !in r
  {
    UpperSuffixes(fmt.number(n, digits))
  }

  /** `formatTotalVolume`: a USD amount with at most one fraction digit. */
  function FormatTotalVolume(fmt: NumberFormat, usd: real): (r: string)
    ensures SuffixesUpper(fmt.currency(usd, 1), r)
    ensures AtMostOnce(fmt.currency(usd, 1), 'k') && AtMostOnce(fmt.currency(usd, 1), 'm') ==>
      'k' !in r && 'm' !in r
  {
    CompactCurrency(fmt, usd, 1)
  }

  /** `formatRowVolume`: a USD amount with at most two fraction digits. */
  function FormatRowVolume(fmt: NumberFormat, usd: real): (r: string)
    ensures SuffixesUpper(fmt.currency(usd, 2), r)
    ensures AtMostOnce(fmt.currency(usd, 2), 'k') && AtMostOnce(fmt.currency(usd, 2), 'm') ==>
      'k' !in r && 'm' !in r
  {
    CompactCurrency(fmt, usd, 2)
  }

  /** `formatReward`: a compact number with at most one fraction digit, then the unit. */
  function FormatReward(fmt: NumberFormat, somi: real): (r: string)
    ensures |r| == |fmt.number(somi, 1)| + |RewardUnit|
    ensures SuffixesUpper(fmt.number(somi, 1), r[..|r| - |RewardUnit|])
    ensures r[|r| - |RewardUnit|..] == RewardUnit
    ensures AtMostOnce(fmt.number(somi, 1), 'k') && AtMostOnce(fmt.number(somi, 1), 'm') ==>
      'k' !in r && 'm' !in r
  {
    var amount := CompactNumber(fmt, somi, 1);
    assert (amount + RewardUnit)[..|amount|] == amount;
    amount + RewardUnit
  }

  // ---------------------------------------------------------------------------
  // Properties
  // ---------------------------------------------------------------------------

  /** Replacing the only `a` leaves none behind. */
  lemma ReplaceFirstRemovesSole(s: string, a: char, b: char)
    requires AtMostOnce(s, a)
    requires a != b
    ensures a !in ReplaceFirst(s, a, b)
  {
  }

  /** Replacing `a` with `b` adds no character other than `b`. */
  lemma ReplaceFirstKeepsAbsent(s: string, a: char, b: char, c: char)
    requires c !in s
    requires c != b
    ensures c !in ReplaceFirst(s, a, b)
  {
  }

  /**
    When the locale output names a thousands or millions suffix once, the
    post-processing leaves no lower-case `k` or `m` in a compact amount.
  */
  lemma CompactSuffixesUpper(raw: string)
    ensures AtMostOnce(raw, 'k') && AtMostOnce(raw, 'm') ==>
      var r := ReplaceFirst(ReplaceFirst(raw, 'k', 'K'), 'm', 'M');
      'k' !in r && 'm' !in r
  {
    if AtMostOnce(raw, 'k') && AtMostOnce(raw, 'm') {
      var once := ReplaceFirst(raw, 'k', 'K');
      ReplaceFirstRemovesSole(raw, 'k', 'K');
      assert AtMostOnce(once, 'm') by {
        forall i, j | 0 <= i < |once| && 0 <= j < |once| && once[i] == 'm' && once[j] == 'm'
          ensures i == j
        {
          ReplaceFirstFrame(raw, 'k', 'K', i);
          ReplaceFirstFrame(raw, 'k', 'K', j);
        }
      }
      ReplaceFirstRemovesSole(once, 'm', 'M');
      ReplaceFirstKeepsAbsent(once, 'm', 'M', 'k');
    }
  }

  /** A position of the result that holds neither `a` nor `b` is unchanged. */
  lemma ReplaceFirstFrame(s: string, a: char, b: char, i: nat)
    requires i < |s|
    requires ReplaceFirst(s, a, b)[i] != b
    ensures ReplaceFirst(s, a, b)[i] == s[i]
  {
  }

  /** `replace` changes the first occurrence of `a` into `b` and keeps every other position. */
  lemma ReplaceFirstAt(s: string, a: char, b: char)
    ensures forall i :: 0 <= i < |s| ==>
      ReplaceFirst(s, a, b)[i] == (if FirstAt(s, i, a) then b else s[i])
  {
    var r := ReplaceFirst(s, a, b);
    if a in s {
      var i0 :| 0 <= i0 < |s| && s[i0] == a && a !in s[..i0] && r == s[i0 := b];
      forall i | 0 <= i < |s| ensures FirstAt(s, i, a) <==> i == i0 {
        if i < i0 {
          assert s[..i0][i] == s[i];
        }
        if i > i0 {
          assert s[..i][i0] == a;
        }
      }
    } else {
      forall i | 0 <= i < |s| ensures !FirstAt(s, i, a) {
      }
    }
  }

  /** The two chained `replace` calls meet `SuffixesUpper`. */
  lemma ChainedReplaceFirst(raw: string)
    ensures SuffixesUpper(raw, ReplaceFirst(ReplaceFirst(raw, 'k', 'K'), 'm', 'M'))
  {
    var once := ReplaceFirst(raw, 'k', 'K');
    ReplaceFirstAt(raw, 'k', 'K');
    ReplaceFirstAt(once, 'm', 'M');
    forall i | 0 <= i < |raw| ensures FirstAt(once, i, 'm') <==> FirstAt(raw, i, 'm') {
      assert forall j :: 0 <= j < i ==> (once[..i][j] == 'm' <==> raw[..i][j] == 'm');
    }
  }
}
