/** Step 5 of `MainAsync`: reading a time window two events at a time. Each
    request carries the continuation token the previous page returned,
    starting from the empty token, and the reading stops once a page returns
    a null or empty token. The data service is the `fetch` function; a
    failed call ends the loop with the exception it raised. */
module Paging {
  import opened Common
  import AdhEvent

  /** The boundary types of the data service. */
  datatype BoundaryType = Exact | Inside | Outside | ExactOrCalculated

  /** The fixed part of every request: the stream and the window's bounds. */
  datatype Window = Window(streamId: string, startIndex: string, endIndex: string)

  datatype PageRequest = PageRequest(
    streamId: string,
    startIndex: string,
    endIndex: string,
    boundary: BoundaryType,
    count: int,
    continuationToken: string)

  /** A page of results and the token of the next one, which may be null. */
  datatype Page = Page(results: seq<AdhEvent.Event>, continuationToken: Option<string>)

  /** The data service's paged window read. */
  type Fetch = PageRequest -> Result<Page>

  const EventsPerPage := 2

  /** `string.IsNullOrEmpty`. */
  function IsNullOrEmpty(s: Option<string>): (r: bool)
    ensures r <==> s == None || s == Some("")
  {
    s.None? || s.value == ""
  }

  /** The request made with a given token: only the token ever varies. */
  function Request(w: Window, token: string): (r: PageRequest)
    ensures r.streamId == w.streamId && r.startIndex == w.startIndex && r.endIndex == w.endIndex
    ensures r.boundary == Inside && r.count == EventsPerPage && r.continuationToken == token
  {
    PageRequest(w.streamId, w.startIndex, w.endIndex, Inside, EventsPerPage, token)
  }

  /** The token fetch `k` is made with, or `None` when fetch `k` is never
      made because an earlier one failed or returned a null or empty token. */
  function TokenBefore(fetch: Fetch, w: Window, k: nat): Option<string> {
    if k == 0 then Some("")
    else
      match TokenBefore(fetch, w, k - 1)
      case None => None
      case Some(t) =>
        match fetch(Request(w, t))
        case Failure(_) => None
        case Success(page) =>
          if IsNullOrEmpty(page.continuationToken) then None else page.continuationToken
  }

  /** The results fetch `k` emits: none when it is not made or fails. */
  function Results(fetch: Fetch, w: Window, k: nat): seq<AdhEvent.Event> {
    match TokenBefore(fetch, w, k)
    case None => []
    case Some(t) =>
      match fetch(Request(w, t))
      case Failure(_) => []
      case Success(page) => page.results
  }

  /** The results of the fetches before `k`, in fetch order. */
  function Emitted(fetch: Fetch, w: Window, k: nat): seq<AdhEvent.Event> {
    if k == 0 then [] else Emitted(fetch, w, k - 1) + Results(fetch, w, k - 1)
  }

  /** Once a fetch is not made, no later one is. */
  lemma {:induction false} NotMadeStaysNotMade(fetch: Fetch, w: Window, j: nat, k: nat)
    requires j <= k && TokenBefore(fetch, w, j).None?
    ensures TokenBefore(fetch, w, k).None?
    decreases k - j
  {
    if j < k {
      NotMadeStaysNotMade(fetch, w, j + 1, k);
    }
  }

  /** The paging loop. `bound` is any number of fetches after which the
      service has stopped handing out tokens or has failed: the loop itself
      has no limit. It makes exactly the fetches whose token exists, the
      first with the empty token and each later one with the token the page
      before it returned; it emits every page's results in order, and ends
      with the exception of the last fetch when that one failed. */
  method PageThrough(fetch: Fetch, w: Window, ghost bound: nat)
    returns (requests: seq<PageRequest>, emitted: seq<AdhEvent.Event>, outcome: Outcome)
    requires TokenBefore(fetch, w, bound).None?
    ensures 1 <= |requests| <= bound
    ensures forall i :: 0 <= i < |requests| ==>
              TokenBefore(fetch, w, i).Some? && requests[i] == Request(w, TokenBefore(fetch, w, i).value)
    ensures TokenBefore(fetch, w, |requests|).None?
    ensures forall i :: 0 <= i < |requests| - 1 ==>
              && fetch(requests[i]).Success?
              && fetch(requests[i]).value.continuationToken == Some(requests[i + 1].continuationToken)
    ensures fetch(requests[|requests| - 1]).Failure?
            || IsNullOrEmpty(fetch(requests[|requests| - 1]).value.continuationToken)
    ensures emitted == Emitted(fetch, w, |requests|)
    ensures outcome == match fetch(requests[|requests| - 1])
                       case Failure(e) => Failed(e)
                       case Success(_) => Completed
  {
    var continuationToken: Option<string> := Some("");
    requests := [];
    emitted := [];
    ghost var k := 0;
    while true
      invariant k == |requests| < bound
      invariant TokenBefore(fetch, w, k) == continuationToken && continuationToken.Some?
      invariant forall i :: 0 <= i < k ==>
                  TokenBefore(fetch, w, i).Some? && requests[i] == Request(w, TokenBefore(fetch, w, i).value)
      invariant forall i :: 0 <= i < k - 1 ==>
                  && fetch(requests[i]).Success?
                  && fetch(requests[i]).value.continuationToken == Some(requests[i + 1].continuationToken)
      invariant k > 0 ==>
                  && fetch(requests[k - 1]).Success?
                  && fetch(requests[k - 1]).value.continuationToken == continuationToken
      invariant emitted == Emitted(fetch, w, k)
      decreases bound - k
    {
      var request := Request(w, continuationToken.value);
      NextFetch(fetch, w, k, continuationToken.value);
      requests := requests + [request];
      var result := fetch(request);
      if result.Failure? {
        k := k + 1;
        outcome := Failed(result.error);
        return;
      }
      var resultPage := result.value;
      emitted := emitted + resultPage.results;
      continuationToken := resultPage.continuationToken;
      k := k + 1;
      if IsNullOrEmpty(continuationToken) {
        outcome := Completed;
        return;
      }
    }
  }

  /** What fetch `k` made with token `t` settles: the results it adds and
      whether a next fetch is made, with which token. */
  lemma NextFetch(fetch: Fetch, w: Window, k: nat, t: string)
    requires TokenBefore(fetch, w, k) == Some(t)
    ensures fetch(Request(w, t)).Failure? ==>
              TokenBefore(fetch, w, k + 1).None? && Emitted(fetch, w, k + 1) == Emitted(fetch, w, k)
    ensures fetch(Request(w, t)).Success? ==>
              var page := fetch(Request(w, t)).value;
              && Emitted(fetch, w, k + 1) == Emitted(fetch, w, k) + page.results
              && TokenBefore(fetch, w, k + 1)
                 == if IsNullOrEmpty(page.continuationToken) then None else page.continuationToken
  {
    assert Results(fetch, w, k) == match fetch(Request(w, t))
                                   case Failure(_) => []
                                   case Success(page) => page.results;
  }

  /** The number of fetches the loop makes is determined by the service:
      two counts that both end the chain of tokens are equal. */
  lemma {:induction false} FetchCountUnique(fetch: Fetch, w: Window, n: nat, m: nat)
    requires n >= 1 && TokenBefore(fetch, w, n - 1).Some? && TokenBefore(fetch, w, n).None?
    requires m >= 1 && TokenBefore(fetch, w, m - 1).Some? && TokenBefore(fetch, w, m).None?
    ensures n == m
  {
    if n < m {
      NotMadeStaysNotMade(fetch, w, n, m - 1);
    } else if m < n {
      NotMadeStaysNotMade(fetch, w, m, n - 1);
    }
  }

  /** A token naming an offset into a stored list: one mark per event already
      read, so the empty token names the start. */
  function OffsetToken(offset: nat): (t: string)
    ensures |t| == offset
  {
    seq(offset, _ => '#')
  }

  /** A data service holding `events` in the window, which serves a page of
      at most `count` events (at least one) from the offset the token names,
      with a null token after the last page. */
  function ListService(events: seq<AdhEvent.Event>): Fetch {
    (r: PageRequest) =>
      var offset := if |r.continuationToken| <= |events| then |r.continuationToken| else |events|;
      var size := if r.count < 1 then 1 else r.count;
      var next := if offset + size < |events| then offset + size else |events|;
      Success(Page(events[offset..next], if next < |events| then Some(OffsetToken(next)) else None))
  }

  /** How many fetches reading `count` events two at a time takes: at least
      one, even for an empty window. */
  function PagesNeeded(count: nat): (n: nat)
    ensures n >= 1
    ensures count <= EventsPerPage * n
    ensures n == 1 || EventsPerPage * (n - 1) < count
  {
    if count <= EventsPerPage then 1 else (count + EventsPerPage - 1) / EventsPerPage
  }

  /** Against the list service, fetch `k` is made exactly while the events
      before it do not exhaust the list, with the token of offset 2k. */
  lemma {:induction false} ListServiceTokens(events: seq<AdhEvent.Event>, w: Window, k: nat)
    ensures TokenBefore(ListService(events), w, k)
            == if k == 0 || EventsPerPage * k < |events| then Some(OffsetToken(EventsPerPage * k)) else None
  {
    if k > 0 {
      ListServiceTokens(events, w, k - 1);
    }
  }

  /** The page the list service serves for a token naming a place in the list. */
  lemma ListServicePage(events: seq<AdhEvent.Event>, w: Window, offset: nat)
    requires offset <= |events|
    ensures var next := if offset + EventsPerPage < |events| then offset + EventsPerPage else |events|;
      ListService(events)(Request(w, OffsetToken(offset)))
      == Success(Page(events[offset..next], if next < |events| then Some(OffsetToken(next)) else None))
  {
  }

  /** The smaller of `i` and the list's length. */
  function Clamp(i: nat, events: seq<AdhEvent.Event>): (r: nat)
    ensures r <= |events| && r <= i && (r == i || r == |events|)
  {
    if i < |events| then i else |events|
  }

  /** Against the list service, fetch `k` emits the events from offset 2k
      to offset 2k + 2, as far as the list goes. */
  lemma {:induction false} ListServiceResults(events: seq<AdhEvent.Event>, w: Window, k: nat)
    ensures Results(ListService(events), w, k)
            == events[Clamp(EventsPerPage * k, events)..Clamp(EventsPerPage * (k + 1), events)]
  {
    ListServiceTokens(events, w, k);
    if k == 0 || EventsPerPage * k < |events| {
      ListServicePage(events, w, EventsPerPage * k);
    }
  }

  lemma PrefixSplit<T>(s: seq<T>, i: nat, j: nat)
    requires i <= j <= |s|
    ensures s[..j] == s[..i] + s[i..j]
  {
  }

  /** Against the list service, the fetches before `k` emit the list's first
      2k events, or all of them. */
  lemma {:induction false} ListServiceEmitted(events: seq<AdhEvent.Event>, w: Window, k: nat)
    ensures Emitted(ListService(events), w, k) == events[..Clamp(EventsPerPage * k, events)]
  {
    if k > 0 {
      ListServiceEmitted(events, w, k - 1);
      ListServiceResults(events, w, k - 1);
      PrefixSplit(events, Clamp(EventsPerPage * (k - 1), events), Clamp(EventsPerPage * k, events));
    }
  }

  /** Paging through a window holding `events` reads every one of them, in
      order, with one fetch per two events, and completes. */
  method ReadList(events: seq<AdhEvent.Event>, w: Window)
    returns (requests: seq<PageRequest>, emitted: seq<AdhEvent.Event>, outcome: Outcome)
    ensures emitted == events
    ensures |requests| == PagesNeeded(|events|)
    ensures forall i :: 0 <= i < |requests| ==> requests[i] == Request(w, OffsetToken(EventsPerPage * i))
    ensures outcome == Completed
  {
    var fetch := ListService(events);
    var n := PagesNeeded(|events|);
    ListServiceTokens(events, w, n);
    requests, emitted, outcome := PageThrough(fetch, w, n);
    ListServiceTokens(events, w, |requests|);
    ListServiceTokens(events, w, |requests| - 1);
    ListServiceTokens(events, w, n - 1);
    FetchCountUnique(fetch, w, |requests|, n);
    ListServiceEmitted(events, w, n);
    ListServiceRequests(events, w, requests);
  }

  /** The requests made against the list service carry the tokens of
      offsets 0, 2, 4 and so on. */
  lemma ListServiceRequests(events: seq<AdhEvent.Event>, w: Window, requests: seq<PageRequest>)
    requires forall i :: 0 <= i < |requests| ==>
               TokenBefore(ListService(events), w, i).Some?
               && requests[i] == Request(w, TokenBefore(ListService(events), w, i).value)
    ensures forall i :: 0 <= i < |requests| ==> requests[i] == Request(w, OffsetToken(EventsPerPage * i))
  {
    forall i | 0 <= i < |requests|
      ensures requests[i] == Request(w, OffsetToken(EventsPerPage * i))
    {
      ListServiceTokens(events, w, i);
    }
  }

  /** The four events the end-to-end test writes are read in two fetches:
      the first with the empty token, the second with the token the first
      page returned. */
  method ReadFourEvents(events: seq<AdhEvent.Event>, w: Window)
    returns (requests: seq<PageRequest>, emitted: seq<AdhEvent.Event>)
    requires |events| == 4
    ensures |requests| == 2
    ensures requests[0].continuationToken == "" && requests[1].continuationToken == "##"
    ensures emitted == events
  {
    var outcome;
    requests, emitted, outcome := ReadList(events, w);
    assert OffsetToken(2) == "##";
  }
}
