/**
  The `GET` handler: one upstream call, whose result is classified into one
  of three outcomes, each mapped to a status code, a header map and a JSON
  body. The network call and JSON parsing are inputs (`Fetched`), the clock
  reading is `now`, and the locale formatter is `fmt`.
*/
module Proxy {
  import opened Wrappers
  import Ranking
  import Formatting
  import Countdown
  import Seqs

  const PrizePool: string := "36K SOMI"
  const EndsAtIso: string := "2025-11-30T00:00:00Z"
  /** `EndsAtIso` as milliseconds since the Unix epoch. */
  const EndsAtMillis: int := 1764460800000

  const AnonymousName: string := "Anonymous"
  const UpstreamFailedText: string := "Upstream request failed"
  const ProxyErrorText: string := "Proxy error"

  // ---------------------------------------------------------------------------
  // Rows and payload
  // ---------------------------------------------------------------------------

  /** One displayed leaderboard row. */
  datatype Row = Row(rank: int, name: string, volume: string, expectedReward: string)

  /** The upstream response body as the handler reads it. */
  datatype Upstream = Upstream(
    status: string,
    page: int,
    totalPages: int,
    totalRecords: int,
    totalVolume: real,
    data: Option<seq<Ranking.Item>>)

  /** The JSON payload of a successful response. */
  datatype Payload = Payload(
    prizePool: string,
    totalTraders: int,
    totalVolume: string,
    top10: seq<Row>,
    endsAtUtc: string,
    countdownUtc: Countdown.CountdownUtc)

  /** `x.name ?? "Anonymous"`: only a null or missing name falls back. */
  function DisplayName(name: Option<string>): (r: string)
    ensures name.None? ==> r == AnonymousName
    ensures name.Some? ==> r == name.value
  {
    name.GetOr(AnonymousName)
  }

  /** The `.map` step: rank kept, name defaulted, amounts formatted. */
  function ToRow(fmt: Formatting.NumberFormat, x: Ranking.Item): (r: Row)
    ensures r.rank == x.rank
    ensures r.name == DisplayName(x.name)
  {
    Row(x.rank, DisplayName(x.name), Formatting.FormatRowVolume(fmt, x.volume),
        Formatting.FormatReward(fmt, x.expectedReward))
  }

  /** Rows in ascending rank. */
  predicate RanksAscend(rows: seq<Row>) {
    forall i, j :: 0 <= i < j < |rows| ==> rows[i].rank <= rows[j].rank
  }

  /** Every row is the row of some entry. */
  predicate DrawnFrom(fmt: Formatting.NumberFormat, entries: seq<Ranking.Item>, rows: seq<Row>) {
    forall i :: 0 <= i < |rows| ==> rows[i] in ToRows(fmt, entries)
  }

  /**
    Counted with multiplicity, every row of the entries that `rows` leaves
    out ranks no better than every row shown.
  */
  predicate ShowsLowest(fmt: Formatting.NumberFormat, entries: seq<Ranking.Item>, rows: seq<Row>) {
    forall x, i :: x in multiset(ToRows(fmt, entries)) - multiset(rows) && 0 <= i < |rows| ==>
      rows[i].rank <= x.rank
  }

  /**
    `top10`: at most ten rows in ascending rank, drawn (with multiplicity)
    from the rows of the upstream entries, and every upstream row left out
    ranked no better than every shown row. `DrawnFrom` is a corollary of the
    multiset clause (`DrawnFromRows`).
  */
  function Top10(fmt: Formatting.NumberFormat, data: Option<seq<Ranking.Item>>): (rows: seq<Row>)
    ensures |rows| == Ranking.Min(Ranking.TopCount, |Ranking.Entries(data)|)
    ensures RanksAscend(rows)
    ensures multiset(rows) <= multiset(ToRows(fmt, Ranking.Entries(data)))
    ensures DrawnFrom(fmt, Ranking.Entries(data), rows)
    ensures ShowsLowest(fmt, Ranking.Entries(data), rows)
  {
    var rows := ToRows(fmt, Ranking.Select(data));
    Top10Properties(fmt, data, rows);
    rows
  }

  lemma Top10Properties(fmt: Formatting.NumberFormat, data: Option<seq<Ranking.Item>>, rows: seq<Row>)
    requires rows == ToRows(fmt, Ranking.Select(data))
    ensures |rows| == Ranking.Min(Ranking.TopCount, |Ranking.Entries(data)|)
    ensures RanksAscend(rows)
    ensures multiset(rows) <= multiset(ToRows(fmt, Ranking.Entries(data)))
    ensures DrawnFrom(fmt, Ranking.Entries(data), rows)
    ensures ShowsLowest(fmt, Ranking.Entries(data), rows)
  {
    SelectedRows(fmt, data);
    DrawnFromRows(fmt, Ranking.Entries(data), rows);
    SelectedRowsLowest(fmt, data);
  }

  /** `ToRow` with the formatter fixed: the callback `.map` applies. */
  function RowOf(fmt: Formatting.NumberFormat): Ranking.Item -> Row {
    x => ToRow(fmt, x)
  }

  /** `.map` over the selected entries. */
  function ToRows(fmt: Formatting.NumberFormat, s: seq<Ranking.Item>): (rows: seq<Row>)
    ensures |rows| == |s|
    ensures forall i :: 0 <= i < |s| ==> rows[i] == ToRow(fmt, s[i])
  {
    Seqs.Map(RowOf(fmt), s)
  }

  /**
    The rows of the selection are, with multiplicity, among the rows of all
    upstream entries: sorting only reorders them and the slice drops some.
  */
  lemma SelectedRows(fmt: Formatting.NumberFormat, data: Option<seq<Ranking.Item>>)
    ensures multiset(ToRows(fmt, Ranking.Select(data))) <= multiset(ToRows(fmt, Ranking.Entries(data)))
  {
    var entries := Ranking.Entries(data);
    var sorted := Ranking.SortByRank(entries);
    var k := Ranking.Min(Ranking.TopCount, |entries|);
    assert Ranking.Select(data) == sorted[..k];
    Seqs.MapPrefixOfPermutation(RowOf(fmt), sorted, entries, k);
  }

  /** Rows included, with multiplicity, in the rows of the entries are each the row of an entry. */
  lemma DrawnFromRows(fmt: Formatting.NumberFormat, entries: seq<Ranking.Item>, rows: seq<Row>)
    requires multiset(rows) <= multiset(ToRows(fmt, entries))
    ensures DrawnFrom(fmt, entries, rows)
  {
    forall i | 0 <= i < |rows|
      ensures rows[i] in ToRows(fmt, entries)
    {
      assert rows[i] in multiset(rows);
    }
  }

  /** The rows of the sorted, sliced copy ascend and hold the lowest ranks. */
  lemma SelectedRowsLowest(fmt: Formatting.NumberFormat, data: Option<seq<Ranking.Item>>)
    ensures RanksAscend(ToRows(fmt, Ranking.Select(data)))
    ensures ShowsLowest(fmt, Ranking.Entries(data), ToRows(fmt, Ranking.Select(data)))
  {
    var entries := Ranking.Entries(data);
    var sorted := Ranking.SortByRank(entries);
    var k := Ranking.Min(Ranking.TopCount, |entries|);
    assert Ranking.Select(data) == sorted[..k];
    PrefixRowsLowest(fmt, entries, sorted, k);
  }

  /**
    The rows of a prefix of a rank-sorted reordering of the entries ascend,
    and every row they leave out is the row of an entry past the cut.
  */
  lemma PrefixRowsLowest(fmt: Formatting.NumberFormat, entries: seq<Ranking.Item>,
                         sorted: seq<Ranking.Item>, k: nat)
    requires Ranking.SortedByRank(sorted)
    requires multiset(sorted) == multiset(entries)
    requires k <= |sorted|
    ensures RanksAscend(ToRows(fmt, sorted[..k]))
    ensures ShowsLowest(fmt, entries, ToRows(fmt, sorted[..k]))
  {
    var rows := ToRows(fmt, sorted[..k]);
    var rest := ToRows(fmt, sorted[k..]);
    Seqs.MapSuffixOfPermutation(RowOf(fmt), sorted, entries, k);
    CutRanks(rows, rest, sorted, k, multiset(ToRows(fmt, entries)));
  }

  /**
    Rows ranked like a sorted sequence up to a cut, whose left-out rows are
    ranked like the sequence past the cut, ascend and keep the lowest ranks.
  */
  lemma CutRanks(rows: seq<Row>, rest: seq<Row>, sorted: seq<Ranking.Item>, k: nat, all: multiset<Row>)
    requires Ranking.SortedByRank(sorted)
    requires k == |rows| && k + |rest| == |sorted|
    requires forall i :: 0 <= i < k ==> rows[i].rank == sorted[i].rank
    requires forall j :: 0 <= j < |rest| ==> rest[j].rank == sorted[k + j].rank
    requires all - multiset(rows) == multiset(rest)
    ensures RanksAscend(rows)
    ensures forall x, i :: x in all - multiset(rows) && 0 <= i < |rows| ==> rows[i].rank <= x.rank
  {
    forall x, i | x in all - multiset(rows) && 0 <= i < |rows|
      ensures rows[i].rank <= x.rank
    {
      assert x in rest;
      var j :| 0 <= j < |rest| && rest[j] == x;
      assert sorted[i].rank <= sorted[k + j].rank;
    }
  }

  /**
    The successful payload, with the countdown read at `now`: the fixed
    campaign fields, at most ten rows holding the lowest ranks in ascending
    order, and a countdown that is normal, matches the time left to the
    deadline to under a second, and reads all zeros once it has passed.
  */
  function BuildPayload(fmt: Formatting.NumberFormat, raw: Upstream, now: int): (p: Payload)
    ensures p.prizePool == PrizePool && p.endsAtUtc == EndsAtIso
    ensures p.totalTraders == raw.totalRecords
    ensures p.totalVolume == Formatting.FormatTotalVolume(fmt, raw.totalVolume)
    ensures |p.top10| <= Ranking.TopCount  // a corollary of the next clause
    ensures |p.top10| == Ranking.Min(Ranking.TopCount, |Ranking.Entries(raw.data)|)
    ensures RanksAscend(p.top10)
    ensures multiset(p.top10) <= multiset(ToRows(fmt, Ranking.Entries(raw.data)))
    ensures ShowsLowest(fmt, Ranking.Entries(raw.data), p.top10)
    ensures var c := p.countdownUtc;
            var parts := Countdown.Parts(c.days, c.hours, c.minutes, c.seconds);
      && Countdown.Normal(parts)
      && Countdown.Millis(parts) <= Countdown.Remaining(now, EndsAtMillis) < Countdown.Millis(parts) + Countdown.MillisPerSecond
      && Countdown.ParseLabel(c.labelText) == Some(parts)
    ensures now >= EndsAtMillis ==> p.countdownUtc == Countdown.CountdownUtc(0, 0, 0, 0, "Payout in 0d 0h 0m 0s")
  {
    Payload(PrizePool, raw.totalRecords, Formatting.FormatTotalVolume(fmt, raw.totalVolume),
            Top10(fmt, raw.data), EndsAtIso, Countdown.CountdownAt(now, EndsAtMillis))
  }

  // ---------------------------------------------------------------------------
  // Outcomes and responses
  // ---------------------------------------------------------------------------

  /** A thrown value: its `message` property, if any, and what `String(err)` gives. */
  datatype Thrown = Thrown(message: Option<string>, text: string)

  /** What `r.json()` produced: a parse error, or the body. */
  datatype Parsed = Malformed(error: Thrown) | Json(raw: Upstream)

  /** What `fetch` produced: a thrown transport error, or a status with a body. */
  datatype Fetched = NetworkFailure(error: Thrown) | Received(status: int, body: Parsed)

  /** The three ways a request ends. */
  datatype Outcome = UpstreamFailed(status: int) | Threw(error: Thrown) | Succeeded(payload: Payload)

  datatype Body =
    | UpstreamError(error: string, upstreamStatus: int)
    | ProxyError(error: string, message: string)
    | Report(payload: Payload)

  datatype Response = Response(status: int, headers: map<string, string>, body: Body)

  /** `Response.ok`: a status in the range 200 to 299, the 2xx class. */
  predicate IsOk(status: int)
    ensures IsOk(status) <==> status / 100 == 2
  {
    200 <= status <= 299
  }

  /** `err?.message ?? String(err)`. */
  function ErrorMessage(e: Thrown): (m: string)
    ensures e.message.Some? ==> m == e.message.value
    ensures e.message.None? ==> m == e.text
  {
    e.message.GetOr(e.text)
  }

  /** `cors()`. */
  function Cors(): (h: map<string, string>)
    ensures h.Keys == {"access-control-allow-origin", "access-control-allow-methods"}
    ensures h["access-control-allow-origin"] == "*"
    ensures h["access-control-allow-methods"] == "GET, OPTIONS"
  {
    map["access-control-allow-origin" := "*", "access-control-allow-methods" := "GET, OPTIONS"]
  }

  /** Every entry of `small` is in `big` with the same value. */
  predicate Includes(big: map<string, string>, small: map<string, string>) {
    forall k :: k in small ==> k in big && big[k] == small[k]
  }

  /**
    The status check comes before `r.json()`, so a failing status wins over a
    malformed body; anything thrown by `fetch` or `r.json()` is caught.
  */
  function Classify(fetched: Fetched, fmt: Formatting.NumberFormat, now: int): (o: Outcome)
    ensures o.UpstreamFailed? <==> fetched.Received? && !IsOk(fetched.status)
    ensures o.UpstreamFailed? ==> o.status == fetched.status
    ensures o.Threw? <==> fetched.NetworkFailure? || (IsOk(fetched.status) && fetched.body.Malformed?)
    ensures o.Threw? ==> o.error == (if fetched.NetworkFailure? then fetched.error else fetched.body.error)
    ensures o.Succeeded? <==> fetched.Received? && IsOk(fetched.status) && fetched.body.Json?
    ensures o.Succeeded? ==> o.payload == BuildPayload(fmt, fetched.body.raw, now)
  {
    match fetched
    case NetworkFailure(e) => Threw(e)
    case Received(status, body) =>
      if !IsOk(status) then UpstreamFailed(status)
      else
        match body
        case Malformed(e) => Threw(e)
        case Json(raw) => Succeeded(BuildPayload(fmt, raw, now))
  }

  /**
    The response for each outcome. `Response.json` adds `content-type:
    application/json` to the headers it is given; the success response sets
    its own content type and the cache directive.
  */
  function Respond(o: Outcome): (r: Response)
    ensures r.status == 502 <==> o.UpstreamFailed?
    ensures r.status == 500 <==> o.Threw?
    ensures r.status == 200 <==> o.Succeeded?
    ensures Includes(r.headers, Cors())
    ensures o.UpstreamFailed? ==> r.body == UpstreamError(UpstreamFailedText, o.status)
    ensures o.Threw? ==> r.body == ProxyError(ProxyErrorText, ErrorMessage(o.error))
    ensures o.Succeeded? ==> r.body == Report(o.payload)
    ensures !o.Succeeded? ==> r.headers.Keys == Cors().Keys + {"content-type"}
    ensures o.Succeeded? ==> r.headers.Keys == Cors().Keys + {"content-type", "cache-control"}
  {
    match o
    case UpstreamFailed(status) =>
      Response(502, JsonHeaders(Cors()), UpstreamError(UpstreamFailedText, status))
    case Threw(e) =>
      Response(500, JsonHeaders(Cors()), ProxyError(ProxyErrorText, ErrorMessage(e)))
    case Succeeded(payload) =>
      var headers := Cors()["content-type" := "application/json; charset=utf-8"]
                           ["cache-control" := "s-maxage=60, stale-while-revalidate=600"];
      Response(200, headers, Report(payload))
  }

  /** The headers `Response.json` sends: the given ones, plus a JSON content type if none is set. */
  function JsonHeaders(h: map<string, string>): (r: map<string, string>)
    ensures r.Keys == h.Keys + {"content-type"}
    ensures Includes(r, h)
  {
    if "content-type" in h then h else h["content-type" := "application/json"]
  }

  /**
    The whole handler. It answers 502 echoing a failing status (whatever the
    body), 500 with the error's message when `fetch` or `r.json()` throws,
    and 200 with the payload otherwise; CORS headers on all.
  */
  function Get(fetched: Fetched, fmt: Formatting.NumberFormat, now: int): (r: Response)
    ensures r.status in {200, 500, 502}
    ensures Includes(r.headers, Cors())
    ensures r.status == 502 <==> fetched.Received? && !IsOk(fetched.status)
    ensures r.status == 502 ==> r.body == UpstreamError(UpstreamFailedText, fetched.status)
    ensures r.status == 500 <==> fetched.NetworkFailure? || (IsOk(fetched.status) && fetched.body.Malformed?)
    ensures fetched.NetworkFailure? ==> r.body == ProxyError(ProxyErrorText, ErrorMessage(fetched.error))
    ensures fetched.Received? && IsOk(fetched.status) && fetched.body.Malformed? ==>
      r.body == ProxyError(ProxyErrorText, ErrorMessage(fetched.body.error))
    ensures r.status == 200 <==> fetched.Received? && IsOk(fetched.status) && fetched.body.Json?
    ensures r.status == 200 ==> r.body == Report(BuildPayload(fmt, fetched.body.raw, now))
  {
    Respond(Classify(fetched, fmt, now))
  }

  // ---------------------------------------------------------------------------
  // Properties
  // ---------------------------------------------------------------------------

  /** An upstream 503 becomes a 502 that reports 503. */
  lemma UpstreamUnavailable(body: Parsed, fmt: Formatting.NumberFormat, now: int)
    ensures Get(Received(503, body), fmt, now) ==
      Response(502, Cors()["content-type" := "application/json"], UpstreamError(UpstreamFailedText, 503))
  {
  }

  /** A successful payload with no `data` has an empty leaderboard. */
  lemma MissingDataShowsNothing(raw: Upstream, fmt: Formatting.NumberFormat, now: int)
    requires raw.data.None?
    ensures BuildPayload(fmt, raw, now).top10 == []
  {
  }
}
