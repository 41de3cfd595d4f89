/**
  The history endpoints of the dashboard:
  `GET /api/devices/:deviceId/readings` (time window, newest first, paged)
  and `GET /api/devices/:deviceId/latest`.
*/
module ReadingsApi {
  import opened Common
  import opened Store
  import opened JsNumbers

  const DefaultLimit: int := 100
  const MaxLimit: int := 1000

  /** PostgreSQL's refusal of a negative LIMIT or OFFSET. */
  const LimitNegative: string := "LIMIT must not be negative"
  const OffsetNegative: string := "OFFSET must not be negative"

  function Min(a: int, b: int): int
  {
    if a <= b then a else b
  }

  /**
    `Math.min(parseInt(limit, 10) || 100, 1000)` with `limit` defaulting to
    "100": never above 1000 and never zero; a missing, unparseable or zero
    limit gives 100.
  */
  function PageLimit(limit: Option<string>): (take: int)
    ensures take <= MaxLimit && take != 0
    ensures ParseInt(limit.GetOr("100")) in {None, Some(0)} ==> take == DefaultLimit
    ensures ParseInt(limit.GetOr("100")).Some? && ParseInt(limit.GetOr("100")).value != 0 ==> take == Min(ParseInt(limit.GetOr("100")).value, MaxLimit)
  {
    var parsed := ParseInt(limit.GetOr("100"));
    var requested := if parsed.None? || parsed.value == 0 then DefaultLimit else parsed.value;
    Min(requested, MaxLimit)
  }

  /** `parseInt(offset, 10) || 0` with `offset` defaulting to "0": an unparseable offset gives 0. */
  function PageOffset(offset: Option<string>): (skip: int)
    ensures ParseInt(offset.GetOr("0")).None? ==> skip == 0
    ensures ParseInt(offset.GetOr("0")).Some? ==> skip == ParseInt(offset.GetOr("0")).value
  {
    ParseInt(offset.GetOr("0")).GetOr(0)
  }

  /** Limits written as integers: zero means the default, anything else is capped at 1000. */
  lemma PageLimitOfNumeral(n: int)
    ensures PageLimit(Some(IntText(n))) == if n == 0 then DefaultLimit else Min(n, MaxLimit)
  {
    ParseNumeral(n);
  }

  /** Without a limit parameter the page holds 100 readings. */
  lemma PageLimitDefault()
    ensures PageLimit(None) == DefaultLimit
  {
    ParseHundred();
    assert ParseInt(None.GetOr("100")) == Some(100);
  }

  lemma ParseHundred()
    ensures ParseInt("100") == Some(100)
  {
    var hundred := "100";
    assert hundred + "" == hundred;
    ParseSignedDigits(hundred, "");
    assert DigitsValue(hundred) == 100 by {
      assert hundred[..2] == "10";
      assert "10"[..1] == "1";
      assert "1"[..0] == "";
    }
    SignNotSpace(hundred[0]);
    TrimStartKeeps(hundred);
  }

  /** Offsets written as integers are taken as they are. */
  lemma PageOffsetOfNumeral(n: int)
    ensures PageOffset(Some(IntText(n))) == n
  {
    ParseNumeral(n);
  }

  /** The reading belongs to the device and lies in the inclusive [from, to] window (each bound only when given). */
  predicate InRange(r: Reading, deviceId: string, from: Option<int>, to: Option<int>)
  {
    && r.deviceId == deviceId
    && (from.None? || r.createdAt >= from.value)
    && (to.None? || r.createdAt <= to.value)
  }

  /** The `WHERE` clause: the readings in range, in table order, each as often as it is stored. */
  function Matching(readings: seq<Reading>, deviceId: string, from: Option<int>, to: Option<int>): (m: seq<Reading>)
    ensures |m| <= |readings|
    ensures forall i :: 0 <= i < |m| ==> InRange(m[i], deviceId, from, to)
    ensures forall x :: multiset(m)[x] == if InRange(x, deviceId, from, to) then multiset(readings)[x] else 0
  {
    if |readings| == 0 then []
    else
      var rest := Matching(readings[1..], deviceId, from, to);
      assert readings == [readings[0]] + readings[1..];
      assert multiset(readings) == multiset{readings[0]} + multiset(readings[1..]);
      if InRange(readings[0], deviceId, from, to) then
        assert multiset([readings[0]] + rest) == multiset{readings[0]} + multiset(rest);
        [readings[0]] + rest
      else rest
  }

  /** Newest first: `ORDER BY created_at DESC`. */
  ghost predicate Descending(xs: seq<Reading>)
  {
    forall i, j :: 0 <= i < j < |xs| ==> xs[i].createdAt >= xs[j].createdAt
  }

  /** Insert `x` into a newest-first list before the first reading that is not newer than it. */
  function InsertDesc(x: Reading, xs: seq<Reading>): (r: seq<Reading>)
    requires Descending(xs)
    ensures Descending(r)
    ensures multiset(r) == multiset(xs) + multiset{x}
  {
    if |xs| == 0 then [x]
    else if x.createdAt >= xs[0].createdAt then [x] + xs
    else
      var rest := InsertDesc(x, xs[1..]);
      assert xs == [xs[0]] + xs[1..];
      NotNewerThanHead(x, xs, rest);
      [xs[0]] + rest
  }

  /** Every reading of the insertion into the tail is no newer than the head it goes behind. */
  lemma NotNewerThanHead(x: Reading, xs: seq<Reading>, rest: seq<Reading>)
    requires Descending(xs) && |xs| > 0 && x.createdAt < xs[0].createdAt
    requires multiset(rest) == multiset(xs[1..]) + multiset{x}
    requires Descending(rest)
    ensures Descending([xs[0]] + rest)
  {
    forall j | 0 <= j < |rest|
      ensures rest[j].createdAt <= xs[0].createdAt
    {
      assert rest[j] in multiset(rest);
      if rest[j] != x {
        assert rest[j] in multiset(xs[1..]);
        var k :| 0 <= k < |xs[1..]| && xs[1..][k] == rest[j];
        assert xs[k + 1] == rest[j];
      }
    }
    var r := [xs[0]] + rest;
    forall i, j | 0 <= i < j < |r|
      ensures r[i].createdAt >= r[j].createdAt
    {
      if i > 0 {
        assert r[i] == rest[i - 1] && r[j] == rest[j - 1];
      } else {
        assert r[j] == rest[j - 1];
      }
    }
  }

  /** The readings newest first; equal times keep their table order. */
  function SortDesc(xs: seq<Reading>): (r: seq<Reading>)
    ensures Descending(r)
    ensures multiset(r) == multiset(xs)
  {
    if |xs| == 0 then []
    else
      assert xs == [xs[0]] + xs[1..];
      InsertDesc(xs[0], SortDesc(xs[1..]))
  }

  /** `OFFSET skip LIMIT take` over a list. */
  function Window(xs: seq<Reading>, skip: nat, take: nat): (w: seq<Reading>)
    ensures |w| == if skip >= |xs| then 0 else Min(take, |xs| - skip)
    ensures forall i :: 0 <= i < |w| ==> w[i] == xs[skip + i]
  {
    if skip >= |xs| then [] else xs[skip..Min(skip + take, |xs|)]
  }

  /** A window of the ranked readings is newest first and holds only stored readings in range. */
  lemma RankedWindow(readings: seq<Reading>, deviceId: string, from: Option<int>, to: Option<int>, skip: nat, take: nat)
    ensures var items := Window(SortDesc(Matching(readings, deviceId, from, to)), skip, take);
      && Descending(items)
      && (forall i :: 0 <= i < |items| ==> InRange(items[i], deviceId, from, to))
      && (forall i :: 0 <= i < |items| ==> items[i] in readings)
  {
    var filtered := Matching(readings, deviceId, from, to);
    var sorted := SortDesc(filtered);
    var items := Window(sorted, skip, take);
    forall i | 0 <= i < |items|
      ensures InRange(items[i], deviceId, from, to) && items[i] in readings
    {
      assert items[i] == sorted[skip + i];
      assert items[i] in multiset(sorted);
      assert items[i] in multiset(filtered);
    }
    forall i, j | 0 <= i < j < |items|
      ensures items[i].createdAt >= items[j].createdAt
    {
      assert items[i] == sorted[skip + i] && items[j] == sorted[skip + j];
    }
  }

  /** Query parameters; `from` and `to` are None when absent or empty. */
  datatype ReadingsQuery = ReadingsQuery(from: Option<int>, to: Option<int>, limit: Option<string>, offset: Option<string>)

  /** One page of history and the count of every reading the filter admits. */
  datatype Page = Page(items: seq<Reading>, total: nat, limit: int, offset: int)

  /** `ranked` orders the filtered readings newest first (ties in any order): what `ORDER BY created_at DESC` may return. */
  ghost predicate Ranking(ranked: seq<Reading>, readings: seq<Reading>, deviceId: string, from: Option<int>, to: Option<int>)
  {
    Descending(ranked) && multiset(ranked) == multiset(Matching(readings, deviceId, from, to))
  }

  /** The page for non-negative paging values: the window of the ranked filtered readings. */
  function MakePage(readings: seq<Reading>, deviceId: string, from: Option<int>, to: Option<int>, skip: nat, take: nat): (page: Page)
    ensures page.limit == take && page.offset == skip
    ensures page.total == |Matching(readings, deviceId, from, to)|
    ensures |page.items| == if skip >= page.total then 0 else Min(take, page.total - skip)
    ensures Descending(page.items)
    ensures forall i :: 0 <= i < |page.items| ==> InRange(page.items[i], deviceId, from, to)
    ensures forall i :: 0 <= i < |page.items| ==> page.items[i] in readings
    ensures exists ranked :: Ranking(ranked, readings, deviceId, from, to) && page.items == Window(ranked, skip, take)
  {
    var filtered := Matching(readings, deviceId, from, to);
    var ranked := SortDesc(filtered);
    RankedWindow(readings, deviceId, from, to, skip, take);
    assert Ranking(ranked, readings, deviceId, from, to);
    Page(Window(ranked, skip, take), |filtered|, take, skip)
  }

  /**
    The history query: the device's readings in the window, newest first,
    cut to the page; `total` counts the whole filtered set. A negative
    limit or offset reaches the database, which refuses it, checking the
    offset before the limit.
  */
  function GetReadings(s: Store, deviceId: string, q: ReadingsQuery, fault: Option<string>): (r: Reply<Page>)
    ensures r.Ok? <==> fault.None? && PageLimit(q.limit) >= 0 && PageOffset(q.offset) >= 0
    ensures r.Fail? ==> r.status == InternalStatus
    ensures fault.Some? ==> r == Fail(InternalStatus, ErrorCode(fault.value, InternalError))
    ensures fault.None? && PageOffset(q.offset) < 0 ==> r == Fail(InternalStatus, OffsetNegative)
    ensures fault.None? && PageOffset(q.offset) >= 0 && PageLimit(q.limit) < 0 ==> r == Fail(InternalStatus, LimitNegative)
    ensures r.Ok? ==> r.data.limit == PageLimit(q.limit) && r.data.offset == PageOffset(q.offset)
    ensures r.Ok? ==> r.data == MakePage(s.readings, deviceId, q.from, q.to, r.data.offset, r.data.limit)
  {
    var take := PageLimit(q.limit);
    var skip := PageOffset(q.offset);
    if fault.Some? then Fail(InternalStatus, ErrorCode(fault.value, InternalError))
    else if skip < 0 then Fail(InternalStatus, OffsetNegative)
    else if take < 0 then Fail(InternalStatus, LimitNegative)
    else Ok(MakePage(s.readings, deviceId, q.from, q.to, skip, take))
  }

  /** Paging never changes the total: it counts the filtered readings whatever the limit and offset. */
  lemma TotalIgnoresPaging(s: Store, deviceId: string, q: ReadingsQuery, limit: Option<string>, offset: Option<string>)
    requires PageLimit(q.limit) >= 0 && PageOffset(q.offset) >= 0
    requires PageLimit(limit) >= 0 && PageOffset(offset) >= 0
    ensures GetReadings(s, deviceId, q.(limit := limit, offset := offset), None).data.total
         == GetReadings(s, deviceId, q, None).data.total
  {
  }

  /** Consecutive windows over the same ranking join into one window: no reading is skipped or shown twice. */
  lemma {:induction false} WindowsConcatenate(xs: seq<Reading>, skip: nat, first: nat, second: nat)
    ensures Window(xs, skip, first) + Window(xs, skip + first, second) == Window(xs, skip, first + second)
  {
    var a := Window(xs, skip, first);
    var b := Window(xs, skip + first, second);
    var c := Window(xs, skip, first + second);
    assert |a + b| == |c|;
    forall i | 0 <= i < |c|
      ensures (a + b)[i] == c[i]
    {
      if i < |a| {
        assert (a + b)[i] == xs[skip + i];
      } else {
        assert (a + b)[i] == b[i - |a|] == xs[skip + first + (i - |a|)];
      }
    }
  }

  /** The latest reading of the device: one of its readings, and none of them is newer. */
  ghost predicate IsLatest(x: Reading, readings: seq<Reading>, deviceId: string)
  {
    && x in readings
    && x.deviceId == deviceId
    && forall i :: 0 <= i < |readings| && readings[i].deviceId == deviceId ==> readings[i].createdAt <= x.createdAt
  }

  /**
    `ORDER BY created_at DESC LIMIT 1`: null when the device has no
    reading, otherwise its newest reading (the earliest stored one among
    equally new readings).
  */
  method GetLatestReading(s: Store, deviceId: string, fault: Option<string>) returns (r: Reply<Option<Reading>>)
    ensures fault.Some? ==> r == Fail(InternalStatus, ErrorCode(fault.value, InternalError))
    ensures fault.None? ==> r.Ok?
    ensures r.Ok? ==> (r.data.None? <==> forall i :: 0 <= i < |s.readings| ==> s.readings[i].deviceId != deviceId)
    ensures r.Ok? && r.data.Some? ==> IsLatest(r.data.value, s.readings, deviceId)
  {
    if fault.Some? {
      return Fail(InternalStatus, ErrorCode(fault.value, InternalError));
    }
    var best: Option<Reading> := None;
    var i := 0;
    while i < |s.readings|
      invariant 0 <= i <= |s.readings|
      invariant best.None? <==> forall k :: 0 <= k < i ==> s.readings[k].deviceId != deviceId
      invariant best.Some? ==> IsLatest(best.value, s.readings[..i], deviceId)
    {
      var candidate := s.readings[i];
      if candidate.deviceId == deviceId && (best.None? || candidate.createdAt > best.value.createdAt) {
        best := Some(candidate);
      }
      assert s.readings[..i + 1] == s.readings[..i] + [candidate];
      i := i + 1;
    }
    assert s.readings[..i] == s.readings;
    return Ok(best);
  }

  /** The latest reading is as new as the first item of the device's history ranked newest first. */
  lemma LatestHeadsHistory(s: Store, deviceId: string, x: Reading)
    requires IsLatest(x, s.readings, deviceId)
    ensures var ranked := SortDesc(Matching(s.readings, deviceId, None, None));
      |ranked| > 0 && ranked[0].createdAt == x.createdAt
  {
    var filtered := Matching(s.readings, deviceId, None, None);
    var ranked := SortDesc(filtered);
    assert x in multiset(filtered);
    assert x in multiset(ranked);
    var k :| 0 <= k < |ranked| && ranked[k] == x;
    assert ranked[0].createdAt >= x.createdAt;
    assert ranked[0] in multiset(filtered);
    assert ranked[0] in s.readings;
  }
}
