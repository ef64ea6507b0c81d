/** One request's post-processing and the pagination driver. A paginated
    query is a finite run of records, possibly cut short by a raised error. */
module Pagination {
  import opened Base
  import opened Json
  import opened Errors
  import opened Quota

  /** What a lazily consumed generator delivers: the records it yielded,
      then either normal exhaustion (`None`) or the error it raised. */
  datatype Stream = Stream(records: seq<Record>, error: Option<Exc>)

  /** A response as the transport returns it; `body` is `None` when the
      body is not valid JSON, `limitInfo` is the `Sforce-Limit-Info` header. */
  datatype HttpResponse = HttpResponse(status: int, body: Option<Json>, limitInfo: Option<string>)

  /** One page of a query result: its records and whether the server
      returned a `nextRecordsUrl` cursor. */
  datatype Page = Page(records: seq<Record>, next: bool)

  predicate IsSuccess(status: int)
  {
    200 <= status <= 299
  }

  /** `raise_for_status` raises for client and server errors only. */
  predicate RaisesForStatus(status: int)
  {
    400 <= status < 600
  }

  /** The tail of `_make_request` once the response has arrived: error
      responses raise, otherwise the run's request counter is incremented
      and the quota is checked against the new count. */
  function CompleteRequest(requests: nat, resp: HttpResponse, cfg: QuotaConfig): (r: Result<nat>)
    ensures r.Ok? ==> r.value == requests + 1 && CheckQuota(resp.limitInfo, r.value, cfg).None?
    ensures IsSuccess(resp.status)
            || (BuildSalesforceException(resp.status, resp.body).None? && !RaisesForStatus(resp.status)) ==>
              && (r.Ok? <==> CheckQuota(resp.limitInfo, requests + 1, cfg).None?)
              && (r.Err? ==> r.error == CheckQuota(resp.limitInfo, requests + 1, cfg).value)
    ensures !IsSuccess(resp.status) && BuildSalesforceException(resp.status, resp.body).Some? ==>
              r == Err(BuildSalesforceException(resp.status, resp.body).value)
    ensures !IsSuccess(resp.status) && BuildSalesforceException(resp.status, resp.body).None?
            && RaisesForStatus(resp.status) ==>
              r == Err(HttpError(resp.status, resp.body.value))
  {
    if !IsSuccess(resp.status) && BuildSalesforceException(resp.status, resp.body).Some? then
      Err(BuildSalesforceException(resp.status, resp.body).value)
    else if !IsSuccess(resp.status) && RaisesForStatus(resp.status) then
      Err(HttpError(resp.status, resp.body.value))
    else
      match CheckQuota(resp.limitInfo, requests + 1, cfg)
      case Some(e) => Err(e)
      case None => Ok(requests + 1)
  }

  predicate AllObjects(items: seq<Json>)
  {
    forall i :: 0 <= i < |items| ==> items[i].Obj?
  }

  /** `resp.json()`, then `.get("records", [])` and `.get("nextRecordsUrl")`. */
  function DecodePage(body: Option<Json>): (r: Result<Page>)
    ensures body.None? ==> r == Err(Python(ValueError))
    ensures body.Some? && !body.value.Obj? ==> r == Err(Python(AttributeError))
    ensures r.Ok? ==> body.Some? && body.value.Obj?
    ensures r.Ok? ==> (r.value.next <==> Get(body.value.fields, "nextRecordsUrl") != Null)
    ensures body.Some? && body.value.Obj? && "records" !in body.value.fields ==> r.Ok? && r.value.records == []
    ensures body.Some? && body.value.Obj? && "records" in body.value.fields ==>
              var records := body.value.fields["records"];
              && (r.Ok? <==> records.Arr? && AllObjects(records.items))
              && (r.Err? ==> r.error == Python(TypeError))
              && (r.Ok? ==> |r.value.records| == |records.items|
                            && forall i :: 0 <= i < |records.items| ==> r.value.records[i] == records.items[i].fields)
  {
    match body
    case None => Err(Python(ValueError))
    case Some(Obj(m)) =>
      var next := Get(m, "nextRecordsUrl") != Null;
      if "records" !in m then Ok(Page([], next))
      else if m["records"].Arr? && AllObjects(m["records"].items) then
        var items := m["records"].items;
        Ok(Page(seq(|items|, i requires 0 <= i < |items| => items[i].fields), next))
      else Err(Python(TypeError))
    case Some(_) => Err(Python(AttributeError))
  }

  /** `yield from` each stream in turn: the records of every stream up to
      and including the first that raises, then that stream's error. */
  function Chain(streams: seq<Stream>): (r: Stream)
    decreases |streams|
  {
    if streams == [] then Stream([], None)
    else if streams[0].error.Some? then streams[0]
    else
      var rest := Chain(streams[1..]);
      Stream(streams[0].records + rest.records, rest.error)
  }

  /** `_paginate` over the responses the server gives to successive
      requests: yields each page's records and stops after the first page
      without a cursor. Returns the stream and the updated request count.
      A script that ends while a cursor is pending ends the stream. */
  function Paginate(requests: nat, resps: seq<HttpResponse>, cfg: QuotaConfig): (r: (Stream, nat))
    ensures requests <= r.1 <= requests + |resps|
    decreases |resps|
  {
    if resps == [] then (Stream([], None), requests)
    else
      match CompleteRequest(requests, resps[0], cfg)
      case Err(e) => (Stream([], Some(e)), requests)
      case Ok(requests') =>
        match DecodePage(resps[0].body)
        case Err(e) => (Stream([], Some(e)), requests')
        case Ok(page) =>
          if !page.next then (Stream(page.records, None), requests')
          else
            var (rest, requests'') := Paginate(requests', resps[1..], cfg);
            (Stream(page.records + rest.records, rest.error), requests'')
  }

  /** A response the driver accepts after `count - 1` earlier requests,
      carrying `page`. */
  predicate Delivers(resp: HttpResponse, count: nat, cfg: QuotaConfig, page: Page)
  {
    && IsSuccess(resp.status)
    && CheckQuota(resp.limitInfo, count, cfg).None?
    && DecodePage(resp.body) == Ok(page)
  }

  /** The records of successive pages, in order. */
  function PageRecords(pages: seq<Page>): seq<Record>
  {
    if pages == [] then [] else pages[0].records + PageRecords(pages[1..])
  }

  /** One accepted page: the driver yields its records and, when it
      carries a cursor, continues with the next response. */
  lemma PaginateStep(requests: nat, resps: seq<HttpResponse>, cfg: QuotaConfig, page: Page)
    requires resps != [] && Delivers(resps[0], requests + 1, cfg, page)
    ensures !page.next ==> Paginate(requests, resps, cfg) == (Stream(page.records, None), requests + 1)
    ensures page.next ==>
              var (rest, n) := Paginate(requests + 1, resps[1..], cfg);
              Paginate(requests, resps, cfg) == (Stream(page.records + rest.records, rest.error), n)
  {
    assert CompleteRequest(requests, resps[0], cfg) == Ok(requests + 1);
  }

  /** The first `|pages|` responses are accepted pages, all but the last
      carrying a cursor. */
  predicate PagesDelivered(requests: nat, resps: seq<HttpResponse>, cfg: QuotaConfig, pages: seq<Page>)
  {
    && 0 < |pages| <= |resps|
    && (forall i :: 0 <= i < |pages| ==> Delivers(resps[i], requests + i + 1, cfg, pages[i]))
    && (forall i :: 0 <= i < |pages| - 1 ==> pages[i].next)
    && !pages[|pages| - 1].next
  }

  lemma PagesDeliveredTail(requests: nat, resps: seq<HttpResponse>, cfg: QuotaConfig, pages: seq<Page>)
    requires PagesDelivered(requests, resps, cfg, pages) && |pages| > 1
    ensures PagesDelivered(requests + 1, resps[1..], cfg, pages[1..])
  {
    forall i | 0 <= i < |pages| - 1
      ensures Delivers(resps[1..][i], requests + 1 + i + 1, cfg, pages[1..][i])
    {
      assert Delivers(resps[i + 1], requests + (i + 1) + 1, cfg, pages[i + 1]);
    }
  }

  /** When the first `n + 1` responses are accepted pages, all but the last
      carrying a cursor, the driver yields exactly their records in order,
      counts `n + 1` requests, and never looks at later responses. */
  lemma {:induction false} PaginateConcatenates(requests: nat, resps: seq<HttpResponse>, cfg: QuotaConfig, pages: seq<Page>)
    requires PagesDelivered(requests, resps, cfg, pages)
    ensures Paginate(requests, resps, cfg) == (Stream(PageRecords(pages), None), requests + |pages|)
    decreases |pages|
  {
    assert Delivers(resps[0], requests + 1, cfg, pages[0]);
    PaginateStep(requests, resps, cfg, pages[0]);
    if |pages| > 1 {
      PagesDeliveredTail(requests, resps, cfg, pages);
      PaginateConcatenates(requests + 1, resps[1..], cfg, pages[1..]);
    } else {
      assert pages[1..] == [];
      assert PageRecords(pages) == pages[0].records;
    }
  }

  /** Nothing after the first cursorless page is requested: the driver's
      result does not depend on the responses that follow it. */
  lemma PaginateStopsAtLastPage(requests: nat, resps: seq<HttpResponse>, more: seq<HttpResponse>, cfg: QuotaConfig, pages: seq<Page>)
    requires PagesDelivered(requests, resps, cfg, pages)
    ensures Paginate(requests, resps + more, cfg) == Paginate(requests, resps, cfg)
  {
    assert PagesDelivered(requests, resps + more, cfg, pages) by {
      forall i | 0 <= i < |pages|
        ensures Delivers((resps + more)[i], requests + i + 1, cfg, pages[i])
      {
        assert (resps + more)[i] == resps[i];
      }
    }
    PaginateConcatenates(requests, resps, cfg, pages);
    PaginateConcatenates(requests, resps + more, cfg, pages);
  }
}
