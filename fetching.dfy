/** `Fetcher.getNextPage`, shared verbatim by both scripts: fetch one page of the
    live thread with a bounded retry loop, check and normalise its records, and
    advance the pagination cursor `lastName`. The HTTP request `requestJson` is
    replaced by an oracle `net`: `net(n)` is how the n-th request this fetcher
    issues settles. */
module Fetching {
  import opened Values
  import opened Records

  /** How one `requestJson` call settles: with the parsed body, or rejected with an
      error that may carry a `statusCode` (the HTTP status for a response of 400 or
      more, 10 for a timeout, none for transport and JSON parse errors). */
  datatype Outcome = Response(json: Json) | Rejected(statusCode: Option<int>)

  /** The errors `getNextPage` retries: those whose `statusCode` is truthy. */
  predicate Retryable(o: Outcome)
  {
    o.Rejected? && o.statusCode.Some? && o.statusCode.value != 0
  }

  /** The initial value of the `attempts` countdown. */
  const InitialAttempts := 10
  /** It is decremented before each request and checked against 0, so one call
      issues at most this many requests. */
  const MaxRequests := InitialAttempts - 1

  function UrlBase(liveId: string): string
  {
    "https://www.reddit.com/live/" + liveId + ".json"
  }

  /** The query string of a page request for the cursor `lastName`. */
  function Query(lastName: JsVal): string
  {
    "?after=" + Display(lastName) + "&limit=100"
  }

  function Repeat(s: string, n: nat): (r: seq<string>)
    ensures |r| == n && forall i :: 0 <= i < n ==> r[i] == s
  {
    seq(n, _ => s)
  }

  /** The number of requests one `getNextPage` call issues when its first request
      is the oracle's `k`-th: it stops at the first outcome that is not a retryable
      error, or after MaxRequests requests. */
  function Attempts(net: nat -> Outcome, k: nat): (n: nat)
    ensures 1 <= n <= MaxRequests
    ensures forall j :: k <= j < k + n - 1 ==> Retryable(net(j))
    ensures n < MaxRequests ==> !Retryable(net(k + n - 1))
  {
    AttemptsFrom(net, k, 1)
  }

  function AttemptsFrom(net: nat -> Outcome, k: nat, i: nat): (n: nat)
    requires 1 <= i <= MaxRequests
    requires forall j :: k <= j < k + i - 1 ==> Retryable(net(j))
    ensures i <= n <= MaxRequests
    ensures forall j :: k <= j < k + n - 1 ==> Retryable(net(j))
    ensures n < MaxRequests ==> !Retryable(net(k + n - 1))
    decreases MaxRequests - i
  {
    if i == MaxRequests || !Retryable(net(k + i - 1)) then i else AttemptsFrom(net, k, i + 1)
  }

  /** `json.data.children.map(...)`: throws at the first child whose kind is not
      'LiveUpdate', otherwise normalises every child with makeUpdate. */
  function MapUpdates(children: seq<Child>, flagKey: string): (r: Result<seq<Update>, Failure>)
    ensures r.Ok? <==> forall i :: 0 <= i < |children| ==> children[i].kind == LiveUpdateKind
    ensures r.Err? ==> r.error == InvalidKind
    ensures r.Ok? ==> |r.value| == |children| &&
                      forall i :: 0 <= i < |children| ==> r.value[i] == MakeUpdate(children[i].data, flagKey)
  {
    if children == [] then
      Ok([])
    else if children[0].kind != LiveUpdateKind then
      Err(InvalidKind)
    else
      match MapUpdates(children[1..], flagKey)
      case Ok(rest) => Ok([MakeUpdate(children[0].data, flagKey)] + rest)
      case Err(e) => Err(e)
  }

  /** What `getNextPage` makes of a parsed body: the updates (or the error) and the
      new cursor. */
  function ReadPage(json: Json, lastName: JsVal, flagKey: string): (r: (Result<seq<Update>, Failure>, JsVal))
    ensures r.0.Err? || r.0.value == [] ==> r.1 == lastName
    ensures json.Falsy? ==> r.0 == Err(EmptyJson)
    ensures r.0.Err? ==> r.0.error in {EmptyJson, NoChildren, InvalidKind}
    ensures r.0.Ok? ==> json.Listing? && r.0 == MapUpdates(json.children, flagKey)
    ensures r.0.Ok? && r.0.value != [] ==>
              json.Listing? && |json.children| > 0 && r.1 == Get(json.children[|json.children| - 1].data, "name")
  {
    match json
    case Falsy => (Err(EmptyJson), lastName)
    case Unlisted => (Err(NoChildren), lastName)
    case Listing(children) =>
      var updates := MapUpdates(children, flagKey);
      if updates.Err? || |updates.value| == 0 then (updates, lastName)
      else (updates, Get(children[|children| - 1].data, "name"))
  }

  /** The result of one `getNextPage` call, the cursor afterwards and the number of
      requests issued. */
  datatype Fetch = Fetch(result: Result<seq<Update>, Failure>, lastName: JsVal, requests: nat)

  /** One `getNextPage` call whose first request is the oracle's `k`-th. */
  function FetchPage(net: nat -> Outcome, k: nat, lastName: JsVal, flagKey: string): (f: Fetch)
    ensures 1 <= f.requests <= MaxRequests
    ensures f.result.Err? || f.result.value == [] ==> f.lastName == lastName
  {
    var n := Attempts(net, k);
    var last := net(k + n - 1);
    if Retryable(last) then
      Fetch(Err(RetriesExhausted), lastName, n)
    else
      match last
      case Rejected(code) => Fetch(Err(RequestFailed(code)), lastName, n)
      case Response(json) =>
        var (result, cursor) := ReadPage(json, lastName, flagKey);
        Fetch(result, cursor, n)
  }

  /** The fetcher: a cursor and the log of the requests it has issued. */
  class Fetcher {
    const urlBase: string
    const flagKey: string
    /** `net(n)` is how the n-th request this fetcher issues settles. */
    const net: nat -> Outcome
    /** The pagination cursor: the name of the last record seen. */
    var lastName: JsVal
    /** The URLs requested so far, in order. */
    var sent: seq<string>

    constructor (liveId: string, flagKey: string, net: nat -> Outcome)
      ensures urlBase == UrlBase(liveId) && this.flagKey == flagKey && this.net == net
      ensures lastName == Str("") && sent == []
    {
      urlBase := UrlBase(liveId);
      this.flagKey := flagKey;
      this.net := net;
      lastName := Str("");
      sent := [];
    }

    /** `requestJson(queryString)`: one request, answered by the oracle. */
    method RequestJson(queryString: string) returns (o: Outcome)
      modifies this`sent
      ensures sent == old(sent) + [urlBase + queryString]
      ensures o == net(|old(sent)|)
    {
      o := net(|sent|);
      sent := sent + [urlBase + queryString];
    }

    /** `getNextPage()`. */
    method GetNextPage() returns (r: Result<seq<Update>, Failure>)
      modifies this`lastName, this`sent
      ensures var f := FetchPage(net, |old(sent)|, old(lastName), flagKey);
              && r == f.result
              && lastName == f.lastName
              && sent == old(sent) + Repeat(urlBase + Query(old(lastName)), f.requests)
    {
      ghost var k := |sent|;
      ghost var n := 0;
      var query := Query(lastName);
      var attempts := InitialAttempts;
      var json: Json;
      while true
        invariant 1 <= attempts <= InitialAttempts && n == InitialAttempts - attempts
        invariant lastName == old(lastName) && query == Query(lastName)
        invariant sent == old(sent) + Repeat(urlBase + query, n)
        invariant forall j :: k <= j < k + n ==> Retryable(net(j))
        decreases attempts
      {
        attempts := attempts - 1;
        if attempts == 0 {
          ExhaustedAfterMaxRequests(net, k, lastName, flagKey);
          return Err(RetriesExhausted);
        }
        var o := RequestJson(query);
        assert o == net(k + n);
        assert Repeat(urlBase + query, n + 1) == Repeat(urlBase + query, n) + [urlBase + query];
        n := n + 1;
        if o.Response? {
          json := o.json;
          SettledOnResponse(net, k, n, lastName, flagKey, json);
          break;
        }
        if !Retryable(o) {
          SettledOnRejection(net, k, n, lastName, flagKey, o.statusCode);
          return Err(RequestFailed(o.statusCode));
        }
      }
      r := ReadJson(json);
    }

    /** The part of `getNextPage` after a body was received: reject a falsy body or
        a page with a foreign kind, normalise the children, and advance the cursor
        when the page is not empty. */
    method ReadJson(json: Json) returns (r: Result<seq<Update>, Failure>)
      modifies this`lastName
      ensures (r, lastName) == ReadPage(json, old(lastName), flagKey)
    {
      if json.Falsy? {
        return Err(EmptyJson);
      }
      if json.Unlisted? {
        return Err(NoChildren);
      }
      r := MapUpdates(json.children, flagKey);
      if r.Err? || |r.value| == 0 {
        return;
      }
      lastName := Get(json.children[|json.children| - 1].data, "name");
    }
  }

  /** The two ways SettledAfter can end, each stated on its own. */
  lemma SettledOnResponse(net: nat -> Outcome, k: nat, m: nat, lastName: JsVal, flagKey: string, json: Json)
    requires 1 <= m <= MaxRequests
    requires forall j :: k <= j < k + m - 1 ==> Retryable(net(j))
    requires net(k + m - 1) == Response(json)
    ensures FetchPage(net, k, lastName, flagKey) ==
            Fetch(ReadPage(json, lastName, flagKey).0, ReadPage(json, lastName, flagKey).1, m)
  {
    SettledAfter(net, k, m, lastName, flagKey);
  }

  lemma SettledOnRejection(net: nat -> Outcome, k: nat, m: nat, lastName: JsVal, flagKey: string,
                           code: Option<int>)
    requires 1 <= m <= MaxRequests
    requires forall j :: k <= j < k + m - 1 ==> Retryable(net(j))
    requires net(k + m - 1) == Rejected(code) && !Retryable(Rejected(code))
    ensures FetchPage(net, k, lastName, flagKey) == Fetch(Err(RequestFailed(code)), lastName, m)
  {
    SettledAfter(net, k, m, lastName, flagKey);
  }

  /** Nine retryable errors in a row exhaust the countdown. */
  lemma ExhaustedAfterMaxRequests(net: nat -> Outcome, k: nat, lastName: JsVal, flagKey: string)
    requires forall j :: k <= j < k + MaxRequests ==> Retryable(net(j))
    ensures FetchPage(net, k, lastName, flagKey) == Fetch(Err(RetriesExhausted), lastName, MaxRequests)
  {
    assert Attempts(net, k) == MaxRequests;
  }

  /** A call that saw `m - 1` retryable errors and then an outcome that is not
      retried issued `m` requests and settles with that outcome. */
  lemma SettledAfter(net: nat -> Outcome, k: nat, m: nat, lastName: JsVal, flagKey: string)
    requires 1 <= m <= MaxRequests
    requires forall j :: k <= j < k + m - 1 ==> Retryable(net(j))
    requires !Retryable(net(k + m - 1))
    ensures FetchPage(net, k, lastName, flagKey) ==
            match net(k + m - 1)
            case Rejected(code) => Fetch(Err(RequestFailed(code)), lastName, m)
            case Response(json) =>
              var page := ReadPage(json, lastName, flagKey);
              Fetch(page.0, page.1, m)
  {
    assert Attempts(net, k) == m;
  }

  /** 'Unable to retrieve data!' is thrown exactly when nine requests in a row fail
      with a retryable error; no tenth request is made. */
  lemma ExhaustedIffNineRetryable(net: nat -> Outcome, k: nat, lastName: JsVal, flagKey: string)
    ensures FetchPage(net, k, lastName, flagKey).result == Err(RetriesExhausted) <==>
            forall j :: k <= j < k + MaxRequests ==> Retryable(net(j))
  {
    if FetchPage(net, k, lastName, flagKey).result == Err(RetriesExhausted) {
      ExhaustedOnlyAfterNine(net, k, lastName, flagKey);
    }
    if forall j :: k <= j < k + MaxRequests ==> Retryable(net(j)) {
      ExhaustedAfterMaxRequests(net, k, lastName, flagKey);
    }
  }

  /** Only a retryable last outcome ends a call with 'Unable to retrieve data!', and
      the countdown lets that happen only on the ninth request. */
  lemma ExhaustedOnlyAfterNine(net: nat -> Outcome, k: nat, lastName: JsVal, flagKey: string)
    requires FetchPage(net, k, lastName, flagKey).result == Err(RetriesExhausted)
    ensures forall j :: k <= j < k + MaxRequests ==> Retryable(net(j))
  {
    var n := Attempts(net, k);
    var last := net(k + n - 1);
    assert Retryable(last);
    assert n == MaxRequests;
    forall j | k <= j < k + MaxRequests
      ensures Retryable(net(j))
    {
      if j < k + n - 1 {
      } else {
        assert j == k + n - 1;
      }
    }
  }

  /** A page is returned only from a listing whose children all carry the kind
      'LiveUpdate': the updates are the children's, in order, and when there are
      any the cursor becomes the `name` of the last child's data. */
  lemma OkComesFromListing(net: nat -> Outcome, k: nat, lastName: JsVal, flagKey: string)
    ensures var f := FetchPage(net, k, lastName, flagKey);
            var o := net(k + f.requests - 1);
            f.result.Ok? ==>
              && o.Response? && o.json.Listing?
              && (forall i :: 0 <= i < |o.json.children| ==> o.json.children[i].kind == LiveUpdateKind)
              && f.result.value == MapUpdates(o.json.children, flagKey).value
              && (f.result.value != [] ==>
                    f.lastName == Get(o.json.children[|o.json.children| - 1].data, "name"))
  {
    var f := FetchPage(net, k, lastName, flagKey);
    if f.result.Ok? {
      var n := Attempts(net, k);
      var o := net(k + n - 1);
      assert f.requests == n && !Retryable(o) && o.Response?;
      SettledOnResponse(net, k, n, lastName, flagKey, o.json);
      var json := o.json;
      var page := ReadPage(json, lastName, flagKey);
      assert f.result == page.0 && f.lastName == page.1;
      assert json.Listing? && |json.children| > 0 ==>
               (page.0.value != [] ==> page.1 == Get(json.children[|json.children| - 1].data, "name"));
    }
  }

  /** A non-retryable rejection on the first request is rethrown at once. */
  lemma RethrownWithoutRetry(net: nat -> Outcome, k: nat, lastName: JsVal, flagKey: string)
    requires net(k).Rejected? && !Retryable(net(k))
    ensures FetchPage(net, k, lastName, flagKey) == Fetch(Err(RequestFailed(net(k).statusCode)), lastName, 1)
  {
    SettledAfter(net, k, 1, lastName, flagKey);
  }

  /** Eight retryable failures followed by a response still deliver that page. */
  lemma EighthRetrySucceeds(net: nat -> Outcome, k: nat, lastName: JsVal, flagKey: string)
    requires forall j :: k <= j < k + MaxRequests - 1 ==> Retryable(net(j))
    requires net(k + MaxRequests - 1).Response?
    ensures var f := FetchPage(net, k, lastName, flagKey);
            f.requests == MaxRequests &&
            (f.result, f.lastName) == ReadPage(net(k + MaxRequests - 1).json, lastName, flagKey)
  {
    SettledAfter(net, k, MaxRequests, lastName, flagKey);
  }
}
