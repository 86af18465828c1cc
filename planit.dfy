/**
 * The PlanIt bulk downloader (scrapers/planit.py): in one pass per day,
 * from today back over fifteen years, it asks the planning-application API
 * for the day's first page of up to 3000 applications, then for as many further
 * pages as the day's total needs, up to page 5, saving each answer to a
 * file; a 400 answer is retried once.
 *
 * The network and the clock are oracles: `fetch(days, page, attempt)` is
 * the answer to the `attempt`-th request (0 or 1) for `page` in the pass
 * for `days`, and `clock(days)` is the day that pass reads as today
 * (`Clock`). Sleeping and the contents of the saved files are not modelled;
 * each save is recorded by its path.
 */
module Planit {
  import opened Wrappers
  import opened Text
  import opened Calendar

  /** The body of an answer: not JSON, or JSON with (or without) a "total". */
  datatype Body = NotJson | Json(total: Option<int>)

  datatype Response = Response(status: int, body: Body)

  /** The answers the API gives: `fetch(days, page, attempt)`. */
  type Oracle = (nat, nat, nat) -> Response

  /** One HTTP GET, for `page` in the pass for `days`. */
  datatype Get = Get(days: nat, page: nat, url: string)

  /**
   * What stops the run: an answer that is not JSON, one without "total",
   * a day with more than 15000 applications, or a date before year 1.
   */
  datatype Failure = JsonError | KeyError | TooMany | DateOverflow

  /**
   * What the run has done: the `do_scrape(date, page)` calls as (`days`
   * of the pass, page), the GETs they made, the files they wrote, and the
   * exception that stopped the run, if any.
   */
  datatype Trace = Trace(scrapes: seq<(nat, nat)>, gets: seq<Get>, saved: seq<string>, failure: Option<Failure>)

  const Empty := Trace([], [], [], None)

  /** `range(0, 365*15)` */
  const Days := 365 * 15

  // ---------------------------------------------------------------------------
  // One page: do_scrape
  // ---------------------------------------------------------------------------

  const ApiBase := "https://www.planit.org.uk/api/applics/json?"

  /** The request's query parameters, in order. */
  function Query(date: string, page: nat): seq<string>
  {
    ["start_date=" + date, "end_date=" + date, "pg_sz=3000", "page=" + NatToString(page)]
  }

  function Url(date: string, page: nat): string
  {
    ApiBase + "start_date=" + date + "&end_date=" + date + "&pg_sz=3000&page=" + NatToString(page)
  }

  function OutputPath(date: string, page: nat): string
  {
    "output/" + date + "-p" + NatToString(page) + ".json"
  }

  /** The GETs `do_scrape` makes: one, and a second only after a 400. */
  function Requests(fetch: Oracle, days: nat, date: string, page: nat): (r: seq<Get>)
    ensures |r| == (if fetch(days, page, 0).status == 400 then 2 else 1)
    ensures forall i :: 0 <= i < |r| ==> r[i] == Get(days, page, Url(date, page))
  {
    var get := Get(days, page, Url(date, page));
    if fetch(days, page, 0).status == 400 then [get, get] else [get]
  }

  /** The answer `do_scrape` keeps: the retry's after a 400, otherwise the first. */
  function Answer(fetch: Oracle, days: nat, page: nat): (r: Response)
    ensures fetch(days, page, 0).status == 400 ==> r == fetch(days, page, 1)
    ensures fetch(days, page, 0).status != 400 ==> r == fetch(days, page, 0)
  {
    if fetch(days, page, 0).status == 400 then fetch(days, page, 1) else fetch(days, page, 0)
  }

  /** The files `do_scrape` writes: the answer is saved exactly when it is JSON. */
  function Written(fetch: Oracle, days: nat, date: string, page: nat): (r: seq<string>)
    ensures r == [] <==> Answer(fetch, days, page).body == NotJson
    ensures |r| <= 1
    ensures forall i :: 0 <= i < |r| ==> r[i] == OutputPath(date, page)
  {
    if Answer(fetch, days, page).body.Json? then [OutputPath(date, page)] else []
  }

  /** What `do_scrape` returns, or the exception it raises. */
  function TotalOf(fetch: Oracle, days: nat, page: nat): (r: Result<int, Failure>)
    ensures r.Ok? <==> Answer(fetch, days, page).body.Json? && Answer(fetch, days, page).body.total.Some?
    ensures r.Ok? ==> r.value == Answer(fetch, days, page).body.total.value
    ensures r == Err(JsonError) <==> Answer(fetch, days, page).body == NotJson
    ensures r == Err(KeyError) <==> Answer(fetch, days, page).body == Json(None)
  {
    match Answer(fetch, days, page).body
    case NotJson => Err(JsonError)
    case Json(total) => if total.Some? then Ok(total.value) else Err(KeyError)
  }

  /** `do_scrape(date, page)` in the pass for `days`. */
  method DoScrape(fetch: Oracle, days: nat, date: string, page: nat)
    returns (gets: seq<Get>, saved: seq<string>, total: Result<int, Failure>)
    ensures gets == Requests(fetch, days, date, page)
    ensures saved == Written(fetch, days, date, page)
    ensures total == TotalOf(fetch, days, page)
  {
    var url := Url(date, page);
    var response := fetch(days, page, 0);
    gets := [Get(days, page, url)];
    if response.status == 400 {
      response := fetch(days, page, 1);
      gets := gets + [Get(days, page, url)];
    }
    match response.body
    case NotJson =>
      saved := [];
      total := Err(JsonError);
    case Json(t) =>
      saved := [OutputPath(date, page)];
      if t.Some? {
        total := Ok(t.value);
      } else {
        total := Err(KeyError);
      }
  }

  /** The trace after one more `do_scrape` call. */
  function Then(tr: Trace, fetch: Oracle, days: nat, date: string, page: nat): Trace
  {
    var total := TotalOf(fetch, days, page);
    Trace(tr.scrapes + [(days, page)],
          tr.gets + Requests(fetch, days, date, page),
          tr.saved + Written(fetch, days, date, page),
          if total.Err? then Some(total.error) else None)
  }

  // ---------------------------------------------------------------------------
  // The URL
  // ---------------------------------------------------------------------------

  lemma UrlLiterals()
    ensures "&end_date=" == "&" + "end_date="
    ensures "&pg_sz=3000&page=" == "&" + ("pg_sz=3000" + ("&" + "page="))
    ensures '&' !in "pg_sz=3000"
  {
  }

  lemma UrlNested(date: string, page: nat)
    ensures Url(date, page) == ApiBase + (("start_date=" + date) + ("&" + (("end_date=" + date) + ("&" +
      ("pg_sz=3000" + ("&" + ("page=" + NatToString(page))))))))
  {
    UrlLiterals();
  }

  lemma JoinFour(q: seq<string>, sep: string)
    requires |q| == 4
    ensures Join(q, sep) == q[0] + (sep + (q[1] + (sep + (q[2] + (sep + q[3])))))
  {
    assert Join(q[3..], sep) == q[3];
    assert Join(q[2..], sep) == q[2] + sep + q[3] by { assert q[2..][1..] == q[3..]; }
    assert Join(q[1..], sep) == q[1] + sep + Join(q[2..], sep) by { assert q[1..][1..] == q[2..]; }
  }

  lemma QueryFree(date: string, page: nat)
    requires '&' !in date
    ensures forall k :: 0 <= k < 4 ==> '&' !in Query(date, page)[k]
  {
    var p := NatToString(page);
    assert '&' !in p by {
      assert forall i :: 0 <= i < |p| ==> IsDigit(p[i]);
    }
    UrlLiterals();
  }

  /**
   * Every request asks for one day (`start_date` and `end_date` both the
   * date), 3000 applications a page, and the page: its query splits on '&'
   * into exactly those four parameters.
   */
  lemma UrlQuery(date: string, page: nat)
    requires '&' !in date
    ensures Url(date, page) == ApiBase + Join(Query(date, page), "&")
    ensures Split(Join(Query(date, page), "&"), "&") == Query(date, page)
  {
    UrlNested(date, page);
    JoinFour(Query(date, page), "&");
    QueryFree(date, page);
    SplitJoin(Query(date, page), '&');
  }

  /** The date of every request is an ISO date, which holds no '&'. */
  lemma IsoDateHasNoAmpersand(d: Date)
    requires ValidDate(d)
    ensures '&' !in IsoDate(d)
  {
    var s := IsoDate(d);
    assert s == PadDigits(d.year, 4) + "-" + PadDigits(d.month, 2) + "-" + PadDigits(d.day, 2);
    assert forall i :: 0 <= i < 4 ==> IsDigit(PadDigits(d.year, 4)[i]);
    assert forall i :: 0 <= i < 2 ==> IsDigit(PadDigits(d.month, 2)[i]);
    assert forall i :: 0 <= i < 2 ==> IsDigit(PadDigits(d.day, 2)[i]);
  }

  // ---------------------------------------------------------------------------
  // One day: the pages after the first
  // ---------------------------------------------------------------------------

  /** The pages after the first that a day with `total` applications needs: k in 2..5 with total > 3000*(k-1). */
  function FollowUpPages(total: int): (r: seq<nat>)
    ensures forall k :: k in r <==> 2 <= k <= 5 && total > 3000 * (k - 1)
    ensures forall i, j :: 0 <= i < j < |r| ==> r[i] < r[j]
  {
    PagesFromSpec(total, 2);
    PagesFrom(total, 2)
  }

  /** The threshold checks for pages `k`..5, as the pages they ask for. */
  function PagesFrom(total: int, k: nat): seq<nat>
    decreases 6 - k
  {
    if k > 5 then []
    else if total > 3000 * (k - 1) then [k] + PagesFrom(total, k + 1)
    else PagesFrom(total, k + 1)
  }

  /** Page `p` is asked for exactly when it is in range and its threshold is passed, in increasing order. */
  lemma {:induction false} PagesFromSpec(total: int, k: nat)
    decreases 6 - k
    ensures forall p :: p in PagesFrom(total, k) <==> k <= p <= 5 && total > 3000 * (p - 1)
    ensures forall i, j :: 0 <= i < j < |PagesFrom(total, k)| ==> k <= PagesFrom(total, k)[i] < PagesFrom(total, k)[j]
  {
    if k <= 5 {
      var rest := PagesFrom(total, k + 1);
      PagesFromSpec(total, k + 1);
      assert k !in rest;
      if total > 3000 * (k - 1) {
        var r := [k] + rest;
        assert forall j :: 0 < j < |r| ==> r[j] == rest[j - 1];
        assert forall j :: 0 <= j < |rest| ==> rest[j] in rest;
      }
    }
  }

  /** The threshold checks for pages `page`..5 in turn, stopping at the first exception. */
  function FollowUps(tr: Trace, fetch: Oracle, days: nat, date: string, total: int, page: nat): Trace
    requires page >= 2
    decreases 6 - page
  {
    if page > 5 || tr.failure.Some? then tr
    else
      var next := if total > 3000 * (page - 1) then Then(tr, fetch, days, date, page) else tr;
      FollowUps(next, fetch, days, date, total, page + 1)
  }

  /** One pass of the day loop, on its date. */
  function DayRun(fetch: Oracle, days: nat, date: string): Trace
  {
    var first := Then(Empty, fetch, days, date, 1);
    if first.failure.Some? then first
    else
      var total := TotalOf(fetch, days, 1).value;
      var tr := FollowUps(first, fetch, days, date, total, 2);
      if tr.failure.None? && total > 15000 then tr.(failure := Some(TooMany)) else tr
  }

  /** The loop body: page 1, then the threshold checks for pages 2 to 5, then the 15000 check. */
  method ScrapeDay(fetch: Oracle, days: nat, date: string) returns (tr: Trace)
    ensures tr == DayRun(fetch, days, date)
  {
    var gets, saved, total := DoScrape(fetch, days, date, 1);
    tr := Trace([(days, 1)], gets, saved, None);
    if total.Err? {
      return tr.(failure := Some(total.error));
    }
    var t := total.value;
    assert tr == Then(Empty, fetch, days, date, 1);
    tr := ScrapeFollowUps(fetch, days, date, t, tr);
    if tr.failure.None? && t > 15000 {
      tr := tr.(failure := Some(TooMany));
    }
  }

  /** The four threshold checks of the loop body, for pages 2, 3, 4 and 5. */
  method ScrapeFollowUps(fetch: Oracle, days: nat, date: string, total: int, tr0: Trace) returns (tr: Trace)
    requires tr0.failure.None?
    ensures tr == FollowUps(tr0, fetch, days, date, total, 2)
  {
    tr := ScrapeIfOver(fetch, days, date, total, 2, tr0);
    if tr.failure.Some? {
      return;
    }
    tr := ScrapeIfOver(fetch, days, date, total, 3, tr);
    if tr.failure.Some? {
      return;
    }
    tr := ScrapeIfOver(fetch, days, date, total, 4, tr);
    if tr.failure.Some? {
      return;
    }
    tr := ScrapeIfOver(fetch, days, date, total, 5, tr);
  }

  /**
   * `if total > 3000*(page-1): do_scrape(date, page)`, followed by the
   * checks of the later pages.
   */
  method ScrapeIfOver(fetch: Oracle, days: nat, date: string, total: int, page: nat, tr0: Trace)
    returns (tr: Trace)
    requires 2 <= page <= 5 && tr0.failure.None?
    ensures tr == if total > 3000 * (page - 1) then Then(tr0, fetch, days, date, page) else tr0
    ensures FollowUps(tr, fetch, days, date, total, page + 1) == FollowUps(tr0, fetch, days, date, total, page)
    ensures tr.failure.Some? || page == 5 ==> tr == FollowUps(tr0, fetch, days, date, total, page)
  {
    tr := tr0;
    if total > 3000 * (page - 1) {
      var gets, saved, t := DoScrape(fetch, days, date, page);
      tr := Trace(tr.scrapes + [(days, page)], tr.gets + gets, tr.saved + saved,
                  if t.Err? then Some(t.error) else None);
    }
  }

  function Pairs(days: nat, pages: seq<nat>): (r: seq<(nat, nat)>)
    ensures |r| == |pages|
  {
    seq(|pages|, i requires 0 <= i < |pages| => (days, pages[i]))
  }

  /**
   * The checks from `page` on call `do_scrape` for the pages that need it,
   * in increasing order, and stop after the first one that raises; only
   * `do_scrape`'s own exceptions can stop them.
   */
  lemma {:induction false} FollowUpsScrapes(tr: Trace, fetch: Oracle, days: nat, date: string, total: int, page: nat)
    requires page >= 2 && tr.failure.None?
    ensures var r := FollowUps(tr, fetch, days, date, total, page);
      && r.scrapes <= tr.scrapes + Pairs(days, PagesFrom(total, page))
      && (r.failure.None? ==> r.scrapes == tr.scrapes + Pairs(days, PagesFrom(total, page)))
      && r.failure != Some(TooMany) && r.failure != Some(DateOverflow)
    decreases 6 - page
  {
    if page <= 5 {
      var next := if total > 3000 * (page - 1) then Then(tr, fetch, days, date, page) else tr;
      var rest := PagesFrom(total, page + 1);
      var goal := tr.scrapes + Pairs(days, PagesFrom(total, page));
      if total > 3000 * (page - 1) {
        assert PagesFrom(total, page) == [page] + rest;
        PairsCons(days, page, rest);
        assert next.scrapes == tr.scrapes + [(days, page)];
        AppendAssoc(tr.scrapes, [(days, page)], Pairs(days, rest));
      } else {
        assert PagesFrom(total, page) == rest;
      }
      assert goal == next.scrapes + Pairs(days, rest);
      assert FollowUps(tr, fetch, days, date, total, page) == FollowUps(next, fetch, days, date, total, page + 1);
      if next.failure.None? {
        FollowUpsScrapes(next, fetch, days, date, total, page + 1);
      } else {
        assert FollowUps(next, fetch, days, date, total, page + 1) == next;
        PrefixOfAppend(next.scrapes, Pairs(days, rest));
      }
    } else {
      assert PagesFrom(total, page) == [];
      assert tr.scrapes + Pairs(days, PagesFrom(total, page)) == tr.scrapes;
    }
  }

  lemma PairsCons(days: nat, k: nat, pages: seq<nat>)
    ensures Pairs(days, [k] + pages) == [(days, k)] + Pairs(days, pages)
  {
    assert forall i :: 0 < i < |[k] + pages| ==> ([k] + pages)[i] == pages[i - 1];
  }

  lemma PrefixOfAppend<T>(a: seq<T>, b: seq<T>)
    ensures a <= a + b
  {
  }

  /** Above 15000 applications every one of pages 2 to 5 is asked for. */
  lemma AllFollowUpPages(total: int)
    requires total > 15000
    ensures FollowUpPages(total) == [2, 3, 4, 5]
  {
    assert PagesFrom(total, 6) == [];
    assert PagesFrom(total, 5) == [5];
    assert PagesFrom(total, 4) == [4, 5];
    assert PagesFrom(total, 3) == [3, 4, 5];
  }

  /**
   * Each day starts with page 1, then asks for the pages its total needs, in
   * increasing order (page k for 2 <= k <= 5 exactly when the total exceeds
   * 3000*(k-1)), stopping early only at an exception of `do_scrape`; the run
   * stops with "can not handle 15000 a day" only after all of pages 2 to 5.
   */
  lemma DayScrapes(fetch: Oracle, days: nat, date: string)
    ensures var r := DayRun(fetch, days, date);
      && |r.scrapes| >= 1 && r.scrapes[0] == (days, 1)
      && (TotalOf(fetch, days, 1).Err? ==> r.scrapes == [(days, 1)])
      && (TotalOf(fetch, days, 1).Ok? ==>
            var pages := [(days, 1)] + Pairs(days, FollowUpPages(TotalOf(fetch, days, 1).value));
            && r.scrapes <= pages
            && (r.failure.None? || r.failure == Some(TooMany) ==> r.scrapes == pages))
      && (r.failure == Some(TooMany) ==>
            TotalOf(fetch, days, 1).Ok? && TotalOf(fetch, days, 1).value > 15000 &&
            r.scrapes == [(days, 1), (days, 2), (days, 3), (days, 4), (days, 5)])
      && (TotalOf(fetch, days, 1).Ok? && TotalOf(fetch, days, 1).value > 15000 ==> r.failure.Some?)
      && r.failure != Some(DateOverflow)
  {
    var first := Then(Empty, fetch, days, date, 1);
    assert first.scrapes == [(days, 1)];
    if first.failure.None? {
      var t := TotalOf(fetch, days, 1).value;
      FollowUpsScrapes(first, fetch, days, date, t, 2);
      var r := DayRun(fetch, days, date);
      var pages := [(days, 1)] + Pairs(days, FollowUpPages(t));
      if t > 15000 {
        AllFollowUpPages(t);
      }
      if r.failure == Some(TooMany) {
        assert r.scrapes == pages;
      }
    }
  }

  // ---------------------------------------------------------------------------
  // The day loop
  // ---------------------------------------------------------------------------

  function Append(a: Trace, b: Trace): Trace
  {
    Trace(a.scrapes + b.scrapes, a.gets + b.gets, a.saved + b.saved, b.failure)
  }

  /**
   * The first `n` passes of a day loop: pass `days` runs `body(days, s)`
   * when `date(days)` is the date `s` written YYYY-mm-dd, and raises when
   * there is no such date; the loop stops at the first exception.
   */
  function DayLoop(body: (nat, string) -> Trace, date: nat -> Option<string>, n: nat): Trace
  {
    if n == 0 then Empty
    else
      var tr := DayLoop(body, date, n - 1);
      if tr.failure.Some? then tr
      else
        match date(n - 1)
        case None => tr.(failure := Some(DateOverflow))
        case Some(s) => Append(tr, body(n - 1, s))
  }

  /** The body of the script's day loop. */
  function DayBody(fetch: Oracle): (nat, string) -> Trace
  {
    (days: nat, date: string) => DayRun(fetch, days, date)
  }

  /**
   * The clock: `clock(days)` is the day `datetime.date.today()` returns
   * when the pass for `days` reads it. Each pass reads it afresh, so a run
   * that goes on past midnight sees a later day in its later passes.
   */
  type Clock = nat -> Date

  ghost predicate ValidClock(clock: Clock)
  {
    forall days: nat :: ValidDate(clock(days))
  }

  /**
   * `str(datetime.date.today() - timedelta(days=days))` with the clock read
   * in the pass for `days`; nothing before year 1.
   */
  function DateOf(clock: Clock): nat -> Option<string>
    requires ValidClock(clock)
  {
    (days: nat) => match DaysBefore(clock(days), days)
                   case None => None
                   case Some(d) => Some(IsoDate(d))
  }

  /** The first `n` passes of the script's day loop. */
  function RunFor(fetch: Oracle, clock: Clock, n: nat): Trace
    requires ValidClock(clock)
  {
    DayLoop(DayBody(fetch), DateOf(clock), n)
  }

  /** `for days in range(0, 365*15)`: the whole script. */
  method Run(fetch: Oracle, clock: Clock) returns (tr: Trace)
    requires ValidClock(clock)
    ensures tr == RunFor(fetch, clock, Days)
  {
    tr := Empty;
    var days := 0;
    while days < Days
      invariant 0 <= days <= Days
      invariant tr == DayLoop(DayBody(fetch), DateOf(clock), days) && tr.failure.None?
    {
      tr := RunPass(fetch, clock, days, tr);
      days := days + 1;
      if tr.failure.Some? {
        LoopStops(DayBody(fetch), DateOf(clock), days, Days);
        return;
      }
    }
  }

  /** One pass of the day loop: read the clock, take the date, run the loop body on it. */
  method RunPass(fetch: Oracle, clock: Clock, days: nat, tr0: Trace) returns (tr: Trace)
    requires ValidClock(clock)
    requires tr0 == DayLoop(DayBody(fetch), DateOf(clock), days) && tr0.failure.None?
    ensures tr == DayLoop(DayBody(fetch), DateOf(clock), days + 1)
  {
    var today := clock(days);
    var d := DaysBefore(today, days);
    if d.None? {
      LoopOverflows(DayBody(fetch), DateOf(clock), days);
      return tr0.(failure := Some(DateOverflow));
    }
    var date := IsoDate(d.value);
    assert DateOf(clock)(days) == Some(date);
    var day := ScrapeDay(fetch, days, date);
    assert day == DayBody(fetch)(days, date);
    LoopStep(DayBody(fetch), DateOf(clock), days);
    tr := Append(tr0, day);
  }

  /** A pass on a date appends what the body does on it. */
  lemma LoopStep(body: (nat, string) -> Trace, date: nat -> Option<string>, n: nat)
    requires DayLoop(body, date, n).failure.None? && date(n).Some?
    ensures DayLoop(body, date, n + 1) == Append(DayLoop(body, date, n), body(n, date(n).value))
  {
  }

  /** A pass without a date raises and changes nothing else. */
  lemma LoopOverflows(body: (nat, string) -> Trace, date: nat -> Option<string>, n: nat)
    requires DayLoop(body, date, n).failure.None? && date(n).None?
    ensures DayLoop(body, date, n + 1) == DayLoop(body, date, n).(failure := Some(DateOverflow))
  {
  }

  /** A pass that raised nothing follows passes that raised nothing, on a date. */
  lemma LoopBefore(body: (nat, string) -> Trace, date: nat -> Option<string>, n: nat)
    requires n > 0 && DayLoop(body, date, n).failure.None?
    ensures DayLoop(body, date, n - 1).failure.None?
    ensures date(n - 1).Some?
    ensures DayLoop(body, date, n).scrapes == DayLoop(body, date, n - 1).scrapes + body(n - 1, date(n - 1).value).scrapes
  {
  }

  /** Once an exception is raised nothing more happens. */
  lemma {:induction false} LoopStops(body: (nat, string) -> Trace, date: nat -> Option<string>, n: nat, m: nat)
    requires n <= m && DayLoop(body, date, n).failure.Some?
    ensures DayLoop(body, date, m) == DayLoop(body, date, n)
    decreases m
  {
    if n < m {
      LoopStops(body, date, n, m - 1);
    }
  }

  /** The days whose first page was asked for, in the order asked. */
  function FirstPages(scrapes: seq<(nat, nat)>): seq<nat>
  {
    if scrapes == [] then []
    else (if scrapes[0].1 == 1 then [scrapes[0].0] else []) + FirstPages(scrapes[1..])
  }

  lemma {:induction false} FirstPagesAppend(a: seq<(nat, nat)>, b: seq<(nat, nat)>)
    ensures FirstPages(a + b) == FirstPages(a) + FirstPages(b)
  {
    if a == [] {
      assert a + b == b;
    } else {
      var head := if a[0].1 == 1 then [a[0].0] else [];
      assert (a + b)[0] == a[0];
      assert (a + b)[1..] == a[1..] + b;
      assert FirstPages(a + b) == head + FirstPages(a[1..] + b);
      FirstPagesAppend(a[1..], b);
      AppendAssoc(head, FirstPages(a[1..]), FirstPages(b));
    }
  }

  lemma {:induction false} FirstPagesOfFollowUps(days: nat, s: seq<(nat, nat)>, pages: seq<nat>)
    requires s <= Pairs(days, pages)
    requires forall i :: 0 <= i < |pages| ==> pages[i] >= 2
    ensures FirstPages(s) == []
  {
    if s != [] {
      assert s[0] == (days, pages[0]);
      FirstPagesOfFollowUps(days, s[1..], pages[1..]);
    }
  }

  /** A day asks for page 1 once, first. */
  lemma DayFirstPage(fetch: Oracle, days: nat, date: string)
    ensures FirstPages(DayRun(fetch, days, date).scrapes) == [days]
  {
    DayScrapes(fetch, days, date);
    var s := DayRun(fetch, days, date).scrapes;
    assert s == [s[0]] + s[1..];
    FirstPagesAppend([s[0]], s[1..]);
    if TotalOf(fetch, days, 1).Ok? {
      var pages := FollowUpPages(TotalOf(fetch, days, 1).value);
      assert s[1..] <= Pairs(days, pages);
      forall i | 0 <= i < |pages| ensures pages[i] >= 2 {
        assert pages[i] in pages;
      }
      FirstPagesOfFollowUps(days, s[1..], pages);
    }
  }

  /** Adding the passes of one more day to the first pages of `n` days in order. */
  lemma FirstPagesNextDay(before: seq<(nat, nat)>, day: seq<(nat, nat)>, all: seq<(nat, nat)>, n: nat)
    requires |FirstPages(before)| == n && forall i :: 0 <= i < n ==> FirstPages(before)[i] == i
    requires FirstPages(day) == [n]
    requires all == before + day
    ensures |FirstPages(all)| == n + 1
    ensures forall i :: 0 <= i < n + 1 ==> FirstPages(all)[i] == i
  {
    FirstPagesAppend(before, day);
  }

  /**
   * A day loop whose body asks for page 1 of its own day once, first, has
   * asked, while nothing has been raised, for page 1 of day 0, 1, 2, ... in
   * that order, one day per pass.
   */
  lemma {:induction false} LoopVisitsEachDay(body: (nat, string) -> Trace, date: nat -> Option<string>, n: nat)
    requires forall days: nat, s: string :: FirstPages(body(days, s).scrapes) == [days]
    requires DayLoop(body, date, n).failure.None?
    ensures |FirstPages(DayLoop(body, date, n).scrapes)| == n
    ensures forall i :: 0 <= i < n ==> FirstPages(DayLoop(body, date, n).scrapes)[i] == i
  {
    if n > 0 {
      LoopBefore(body, date, n);
      LoopVisitsEachDay(body, date, n - 1);
      var s := date(n - 1).value;
      FirstPagesNextDay(DayLoop(body, date, n - 1).scrapes, body(n - 1, s).scrapes, DayLoop(body, date, n).scrapes, n - 1);
    }
  }

  /**
   * While nothing has been raised, the script has asked for page 1 once in
   * each pass, first in the pass, for pass 0, 1, 2, ... in that order.
   */
  lemma RunVisitsEachDay(fetch: Oracle, clock: Clock, n: nat)
    requires ValidClock(clock)
    requires RunFor(fetch, clock, n).failure.None?
    ensures |FirstPages(RunFor(fetch, clock, n).scrapes)| == n
    ensures forall i :: 0 <= i < n ==> FirstPages(RunFor(fetch, clock, n).scrapes)[i] == i
  {
    forall days: nat, s: string ensures FirstPages(DayBody(fetch)(days, s).scrapes) == [days] {
      DayFirstPage(fetch, days, s);
    }
    LoopVisitsEachDay(DayBody(fetch), DateOf(clock), n);
  }

  /**
   * Two passes that read the same day from the clock ask for different
   * dates, so while the run stays within one day no date is asked for twice.
   */
  lemma RunDatesDistinct(clock: Clock, i: nat, j: nat)
    requires ValidClock(clock) && i != j && clock(i) == clock(j)
    requires DateOf(clock)(i).Some? && DateOf(clock)(j).Some?
    ensures DateOf(clock)(i).value != DateOf(clock)(j).value
    ensures Url(DateOf(clock)(i).value, 1) != Url(DateOf(clock)(j).value, 1)
  {
    var today := clock(i);
    DaysBeforeDistinct(today, i, j);
    IsoDateHasNoAmpersand(DaysBefore(today, i).value);
    IsoDateHasNoAmpersand(DaysBefore(today, j).value);
    UrlDate(DateOf(clock)(i).value, DateOf(clock)(j).value, 1);
  }

  /**
   * A pass that reads the day after the one the pass before it read (the
   * run went past midnight in between) asks for the same date again: its
   * files overwrite that pass's, and the run ends one day short of the
   * oldest day it would otherwise reach.
   */
  lemma RunDateRepeats(clock: Clock, k: nat)
    requires ValidClock(clock) && k > 0
    requires PrevDay(clock(k)) == Some(clock(k - 1))
    ensures DateOf(clock)(k) == DateOf(clock)(k - 1)
  {
    DaysBeforeShift(clock(k), k - 1);
  }

  /** Between two passes the clock stays on its day or moves on to the next one. */
  ghost predicate Steady(clock: Clock)
    requires ValidClock(clock)
  {
    forall days: nat :: clock(days + 1) == clock(days) || PrevDay(clock(days + 1)) == Some(clock(days))
  }

  /**
   * With a clock that never jumps, a later pass never asks for a later date
   * than an earlier pass: the dates go back one day per pass, except that a
   * pass after midnight repeats the date before it.
   */
  lemma {:induction false} RunDatesNonIncreasing(clock: Clock, i: nat, j: nat)
    requires ValidClock(clock) && Steady(clock) && i <= j
    requires DaysBefore(clock(j), j).Some?
    ensures DaysBefore(clock(i), i).Some?
    ensures Key(DaysBefore(clock(j), j).value) <= Key(DaysBefore(clock(i), i).value)
    decreases j
  {
    if i < j {
      var k := j - 1;
      if clock(j) == clock(k) {
        assert DaysBefore(clock(j), k).Some?;
      } else {
        assert PrevDay(clock(j)) == Some(clock(k));
        DaysBeforeShift(clock(j), k);
      }
      RunDatesNonIncreasing(clock, i, k);
    }
  }

  /** Requests for the same page of different dates have different URLs. */
  lemma UrlDate(a: string, b: string, page: nat)
    requires '&' !in a && '&' !in b
    ensures Url(a, page) == Url(b, page) ==> a == b
  {
    UrlQuery(a, page);
    UrlQuery(b, page);
    var ja, jb := Join(Query(a, page), "&"), Join(Query(b, page), "&");
    assert (ApiBase + ja)[|ApiBase|..] == ja;
    assert (ApiBase + jb)[|ApiBase|..] == jb;
    var p := "start_date=";
    assert (p + a)[|p|..] == a;
    assert (p + b)[|p|..] == b;
  }
}
