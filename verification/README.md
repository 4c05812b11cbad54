# Trading-competition leaderboard proxy: a verified model

The repository is a one-route proxy. Its `GET` handler makes one call to the
upstream leaderboard service and then does three things. It picks the ten
best-ranked traders and formats them as rows. It computes a live countdown to
the payout deadline. It turns the result of the upstream call into a response:
502 when the upstream status is not ok, 500 when anything throws, and 200 with
the payload otherwise. All three responses carry the CORS headers. This project
models those three pieces as pure Dafny functions and proves what they
promise.

Modules:

- `Decimal` (`decimal.dfy`): how an integral JavaScript `number` is printed in
  a template literal (`Show`), and its parser (`Value`, `DigitSpan`).
- `Countdown` (`countdown.dfy`): `utcCountdown`, that is, the clamped remaining
  time, its split into days, hours, minutes and seconds, and the label. The
  module also has `ParseLabel`, which reads a label back. The payload's
  `label` field is called `labelText`, because `label` is a reserved word in
  Dafny.
- `Ranking` (`ranking.dfy`): the upstream entry record and the
  copy/sort/slice pipeline. The sort is a stable insertion sort by rank. Nothing in the route makes
  ranks unique, so the order proved is ascending but not strict.
- `Formatting` (`formatting.dfy`): the amount formatters. The locale
  formatter itself is a parameter. What the handler does to its output is
  modelled: upper-casing the first `k` and the first `m`, and appending
  ` SOMI`.
- `Proxy` (`proxy.dfy`): rows, the payload, the three outcomes, `cors()`,
  the status and header mapping, and the whole handler `Get`.
- `Seqs` (`seqs.dfy`): `.map` over a sequence, and the fact that mapping a
  reordered sequence only reorders the image.
- `Wrappers` (`wrappers.dfy`): `Option`, which stands for a value that may be
  `null` or missing.

Inputs the handler takes from its environment:

- The clock reading `now` is a parameter, in integer milliseconds since the
  Unix epoch.
- The deadline `2025-11-30T00:00:00Z` is the constant `Proxy.EndsAtMillis`,
  equal to 1764460800000.
- The result of `fetch` and `r.json()` is a parameter of type
  `Proxy.Fetched`. It is a thrown error, or a status with either a parse
  error or the parsed body.
- The `Intl.NumberFormat` output is a parameter of type
  `Formatting.NumberFormat`.

JavaScript arrays and objects are modelled as immutable sequences and
datatypes. So the spread copy `[...data]` trivially leaves the upstream array
unchanged.

## Model

| member | source | states |
|---|---|---|
| `Countdown.Remaining` | app/api/route.ts:59 | the remaining time is never negative, is at least `end - now`, and is either 0 or exactly `end - now` |
| `Countdown.RemainingMonotone` | app/api/route.ts:59 | a later clock reading never leaves more remaining time |
| `Countdown.Split` | app/api/route.ts:61-67 | the parts are normal (hours < 24, minutes < 60, seconds < 60), and they rebuild the remaining time up to the dropped sub-second rest: `Millis(p) <= ms < Millis(p) + 1000` |
| `Countdown.SplitUnique` | app/api/route.ts:61-67 | normal parts that rebuild `ms` up to under a second are exactly the ones the successive floor divisions produce |
| `Countdown.SplitOfMillis` | app/api/route.ts:61-67 | splitting the time that normal parts stand for, plus less than a second, gives those parts back |
| `Countdown.SplitMonotone` | app/api/route.ts:61-67 | less remaining time never shows more whole seconds |
| `Countdown.ShownMonotone` | app/api/route.ts:56-67 | the time the countdown shows never grows as the clock advances |
| `Countdown.CountdownAt` | app/api/route.ts:56-76 | the fields are normal, rebuild `max(0, end - now)` up to under a second, and are spelled in the label; once `now >= end` every field is 0 and the label is exactly `Payout in 0d 0h 0m 0s` |
| `Countdown.Label` | app/api/route.ts:74 | the label `Payout in {d}d {h}h {m}m {s}s` parses back, through the independent `ParseLabel`, into exactly the parts it was built from |
| `Countdown.ParseLabelExact` | app/api/route.ts:74 | a text parses into parts `p` if and only if it is the label of `p`; so the label spells every number exactly as `${n}` prints it, with no sign and no leading zero |
| `Countdown.ParsedIsLabelText` | app/api/route.ts:74 | the only text that parses into `p` is the template text of `p` |
| `Countdown.ReadFieldCanonical` | app/api/route.ts:74 | a field the parser accepts is spelled exactly as the number it reads is printed |
| `Countdown.LabelRoundTrip` | app/api/route.ts:74 | the template text itself parses back into the parts it spells |
| `Countdown.ZeroCountdown` | app/api/route.ts:59-74 | no time left splits into four zeros, and the label reads exactly `Payout in 0d 0h 0m 0s` |
| `Countdown.LabelInjective` | app/api/route.ts:74 | different parts never produce the same label |
| `Decimal.Show` | app/api/route.ts:74 | a number is printed as a non-empty run of decimal digits with no leading zero |
| `Decimal.ValueOfShow` | app/api/route.ts:74 | reading the printed digits back gives the number printed |
| `Decimal.ShowOfValue` | app/api/route.ts:74 | a digit run with no leading zero is exactly the printing of its value |
| `Ranking.Entries` | app/api/route.ts:105 | the fallback from `raw.data` to `[]`: a missing array reads as no entries, a present one (the empty one included) as itself |
| `Ranking.Insert` | app/api/route.ts:106 | inserting adds exactly one entry (as a multiset) and keeps a rank-sorted sequence sorted |
| `Ranking.SortByRank` | app/api/route.ts:105-106 | the sorted copy is ordered by ascending rank and is a permutation of the upstream entries |
| `Ranking.SortByRankStable` | app/api/route.ts:106 | for every rank, the entries of that rank appear in the sorted copy in their upstream order |
| `Ranking.TakeOfSorted` | app/api/route.ts:107 | a prefix of a rank-sorted sequence is part of it, and every entry left out has a rank no better than any entry kept |
| `Ranking.Select` | app/api/route.ts:105-107 | the selection has `min(10, n)` entries (0 when `data` is missing), is sorted by rank, is drawn from the upstream entries as a multiset, and no upstream entry left out ranks better than a selected one |
| `Ranking.SelectMissing` | app/api/route.ts:105 | a missing `data` array gives an empty selection |
| `Proxy.DisplayName` | app/api/route.ts:110 | a null or missing name becomes `Anonymous`; a present name, the empty one included, passes through unchanged |
| `Proxy.ToRow` | app/api/route.ts:108-113 | a row keeps its entry's rank unchanged and shows its display name |
| `Proxy.ToRows` | app/api/route.ts:108-113 | the `.map` keeps the length and turns the entry at each position into the row at that position |
| `Proxy.Top10` | app/api/route.ts:105-113 | `top10` has `min(10, n)` rows in ascending rank. As a multiset it is part of the rows of all upstream entries, so no entry is shown more often than it occurs, and each row is the row of an upstream entry. Every upstream row left out, counted with multiplicity, ranks no better than every shown row |
| `Proxy.SelectedRows` | app/api/route.ts:105-113 | the rows of the sorted, sliced copy are, with multiplicity, among the rows of the upstream entries |
| `Proxy.DrawnFromRows` | app/api/route.ts:108-113 | rows included with multiplicity in the rows of the entries are each one of those rows |
| `Proxy.SelectedRowsLowest` | app/api/route.ts:105-113 | the rows of the sorted, sliced copy ascend, and every upstream row they leave out, counted with multiplicity, ranks no better than any of them |
| `Proxy.PrefixRowsLowest` | app/api/route.ts:105-113 | the rows of a prefix of a rank-sorted reordering ascend, and the rows left out are those of the entries past the cut |
| `Proxy.CutRanks` | app/api/route.ts:106-107 | rows ranked like a sorted sequence up to a cut, whose left-out rows are ranked like the sequence past the cut, ascend and keep the lowest ranks |
| `Seqs.MapPermutation` | app/api/route.ts:105-113 | mapping a reordering of a sequence gives a reordering of the mapped sequence |
| `Seqs.MapPrefixOfPermutation` | app/api/route.ts:105-113 | the image of a prefix of a reordering is, as a multiset, part of the image of the original |
| `Seqs.MapSuffixOfPermutation` | app/api/route.ts:105-113 | what the image of a reordering holds beyond the image of its prefix is exactly the image of its suffix |
| `Proxy.BuildPayload` | app/api/route.ts:115-122 | the payload carries the fixed prize pool and deadline and `totalRecords` as `totalTraders`. Its `top10` has at most ten rows, in ascending rank, drawn with multiplicity from the upstream rows, and every upstream row left out, counted with multiplicity, ranks no better than every row shown. Its countdown is normal, matches the time left to the deadline to under a second, and its label parses back into its fields. Once the deadline has passed the countdown is all zeros with label `Payout in 0d 0h 0m 0s` |
| `Proxy.MissingDataShowsNothing` | app/api/route.ts:105 | a body with no `data` gives an empty `top10` |
| `Proxy.IsOk` | app/api/route.ts:96 | `r.ok` holds exactly for the statuses of the 2xx class |
| `Proxy.ErrorMessage` | app/api/route.ts:134 | the message is the error's `message` when it has one, and otherwise its string form |
| `Proxy.Cors` | app/api/route.ts:140-145 | exactly two headers: `access-control-allow-origin: *` and `access-control-allow-methods: GET, OPTIONS` |
| `Proxy.Classify` | app/api/route.ts:79-137 | the outcome is an upstream failure exactly when a status arrived and is not ok, whatever the body is. It is a thrown error exactly when `fetch` threw, or the status was ok and the body failed to parse. It is a success, holding the payload, exactly when an ok status came with a parsed body |
| `Proxy.JsonHeaders` | app/api/route.ts:97-100 | `Response.json` keeps the given headers and adds a content type |
| `Proxy.Respond` | app/api/route.ts:96-137 | the status is 502, 500 or 200 exactly for an upstream failure, a thrown error or a success. The 502 body is `Upstream request failed` with the upstream status. The 500 body is `Proxy error` with the error's message. Every response includes the CORS headers. Error responses add only a content type; a success adds a content type and a cache directive |
| `Proxy.Get` | app/api/route.ts:78-137 | the handler answers only 200, 500 or 502, always with the CORS headers. It answers 502 with the echoed status exactly when the upstream status is not ok. It answers 500 exactly when `fetch` or `r.json()` throws. It answers 200 with the payload otherwise |
| `Proxy.UpstreamUnavailable` | app/api/route.ts:96-100 | an upstream 503 is answered with 502, the CORS and JSON headers, and body `{error: "Upstream request failed", status: 503}` |
| `Formatting.ReplaceFirst` | app/api/route.ts:38-39 | `replace` with a one-character pattern keeps the length. It changes nothing when the pattern is absent; otherwise it changes exactly the first occurrence |
| `Formatting.ReplaceFirstRemovesSole` | app/api/route.ts:38-39 | replacing the only occurrence of a character leaves none |
| `Formatting.CompactSuffixesUpper` | app/api/route.ts:29-49 | when the locale output holds at most one `k` and at most one `m`, the post-processed amount holds neither and has the same length |
| `Formatting.UpperSuffixes` | app/api/route.ts:37-39 | the two chained `replace` calls turn the first `k` into `K` and the first `m` into `M` and keep every other character; they leave no lower-case `k` or `m` when the locale output holds at most one of each |
| `Formatting.ReplaceFirstAt` | app/api/route.ts:38-39 | position by position, `replace` writes the replacement at the first occurrence of the pattern and keeps every other character |
| `Formatting.ChainedReplaceFirst` | app/api/route.ts:37-39 | the first `m` of the once-replaced text is the first `m` of the locale output, so the chain upper-cases exactly the first `k` and the first `m` |
| `Formatting.CompactCurrency` | app/api/route.ts:29-39 | the USD compact amount is the locale output with its first `k` and first `m` upper-cased and every other character kept; no lower-case magnitude suffix remains when that output names each at most once |
| `Formatting.CompactNumber` | app/api/route.ts:41-49 | the plain compact amount is the locale output with its first `k` and first `m` upper-cased and every other character kept; no lower-case magnitude suffix remains when that output names each at most once |
| `Formatting.FormatTotalVolume` | app/api/route.ts:51 | the total volume is the one-digit USD locale output with its first `k` and first `m` upper-cased and every other character kept |
| `Formatting.FormatRowVolume` | app/api/route.ts:52 | a row volume is the two-digit USD locale output with its first `k` and first `m` upper-cased and every other character kept |
| `Formatting.FormatReward` | app/api/route.ts:53 | a reward is the one-digit compact locale output, with its first `k` and first `m` upper-cased and every other character kept, followed by the unit ` SOMI`; it holds no lower-case `k` or `m` when that output names each at most once |

## Left out

- The locale formatting: `Intl.NumberFormat` with compact notation, locale
  data and floating-point rounding. It belongs to the runtime, not to this
  repository. It is a parameter. Only the suffix post-processing and the unit
  are modelled.
- The outbound `fetch`, the spoofed browser request headers, `r.json()` and
  `JSON.stringify`. These are network and serialisation work, and their
  results are the `Proxy.Fetched` input. A 200 body is modelled as the
  `Payload` value, not as pretty-printed text.
- Parsing `ENDS_AT_ISO` with `new Date` and reading the clock with
  `new Date()`. The parsed deadline is the constant `Proxy.EndsAtMillis` and
  the clock reading is `now`.
- Floating-point arithmetic in `utcCountdown`. It is modelled as exact integer
  arithmetic. Every valid JavaScript `Date` lies within 8.64e15 ms of the
  epoch. So `end - now` for this deadline stays below 2^53, where
  subtraction and the floor of each division are exact in double precision.
- Errors thrown after parsing, such as dereferencing a field of a `null`
  entry or sorting a `data` that is not an array. Entries are well-typed
  records here, so these cannot arise. The 500 path is still modelled for
  errors from `fetch` and `r.json()`.
- Non-numeric, non-integral or `NaN` ranks. `rank` is a JavaScript
  `number`, so it may be fractional, but the model's ranks are integers. So
  the comparator `a.rank - b.rank` is exact and consistent. `Array.prototype.sort` moving
  `undefined` elements to the end is not modelled either.
- `userId`, `avatar` and the upstream `status`, `page` and `totalPages` are
  carried by the records but never read. The route does this too.
- The fixed URL and the cache-control and content-type values. These are
  copied constants. `export const runtime`, the `async` handler and the
  absence of a timeout are runtime concerns with no counterpart in a pure
  model.
- `Ranking.Select`: "the ten lowest ranks" is stated as a multiset
  inclusion plus "no left-out entry ranks better than a kept one". Ties at
  the cut are decided by upstream order, through stability
  (`Ranking.SortByRankStable`), and are not restated in `Select`'s own
  contract.
