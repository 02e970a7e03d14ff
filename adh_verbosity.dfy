/** `VerbosityHeaderHandler` of the ADH sample: a delegating handler with one
    settable flag. Every request it passes on carries one more
    `accept-verbosity` header, whose value the flag chooses. */
module AdhVerbosity {
  import opened Common
  import opened Http

  const HeaderName := "accept-verbosity"

  /** The header a send adds. */
  function VerbosityHeader(verbose: bool): (h: Header)
    ensures h.name == HeaderName
    ensures h.value == "verbose" <==> verbose
    ensures h.value == "non-verbose" <==> !verbose
  {
    if verbose then Header(HeaderName, "verbose") else Header(HeaderName, "non-verbose")
  }

  /** What a send does to a request: a null request stays null, any other
      gets the header after those it already has. */
  function Decorated(verbose: bool, request: Option<seq<Header>>): (r: Option<seq<Header>>)
    ensures r.None? <==> request.None?
    ensures request.Some? ==>
              && |r.value| == |request.value| + 1
              && r.value[..|request.value|] == request.value
              && r.value[|request.value|] == VerbosityHeader(verbose)
  {
    match request
    case None => None
    case Some(hs) => Some(hs + [VerbosityHeader(verbose)])
  }

  class VerbosityHeaderHandler {
    var verbose: bool
    /** The handler `base.SendAsync` passes the request on to. */
    const inner: Inner

    /** The flag is on unless the caller says otherwise. */
    constructor (inner: Inner, verbose: bool := true)
      ensures this.verbose == verbose && this.inner == inner
    {
      this.inner := inner;
      this.verbose := verbose;
    }

    /** The `Verbose` setter: the flag governs every later send. */
    method SetVerbose(verbose: bool)
      modifies this
      ensures this.verbose == verbose
    {
      this.verbose := verbose;
    }

    /** Adds the header chosen by the flag to a non-null request, then passes
        the request on and returns what the inner handler answers, a response
        or the exception it throws, unchanged.
        The flag itself is left as it was. */
    method SendAsync(request: Request?) returns (response: Result<Response>)
      modifies request
      ensures request != null ==> request.headers == old(request.headers) + [VerbosityHeader(verbose)]
      ensures View(request) == Decorated(verbose, old(View(request)))
      ensures response == inner(Decorated(verbose, old(View(request))))
    {
      if verbose {
        if request != null {
          request.headers := request.headers + [Header(HeaderName, "verbose")];
        }
      } else {
        if request != null {
          request.headers := request.headers + [Header(HeaderName, "non-verbose")];
        }
      }
      response := inner(View(request));
    }
  }

  /** The two settings add different headers, so the one a request carries
      tells which setting sent it. */
  lemma HeaderDeterminesSetting(a: bool, b: bool)
    ensures VerbosityHeader(a) == VerbosityHeader(b) <==> a == b
  {
  }

  /** Sending twice keeps the original headers in front and adds one header
      per send, in the order of the sends. */
  lemma {:induction false} DecoratedTwice(first: bool, second: bool, hs: seq<Header>)
    ensures Decorated(second, Decorated(first, Some(hs)))
      == Some(hs + [VerbosityHeader(first), VerbosityHeader(second)])
  {
    assert hs + [VerbosityHeader(first)] + [VerbosityHeader(second)]
      == hs + [VerbosityHeader(first), VerbosityHeader(second)];
  }

  /** A default handler asks for verbose values; after the setter turns the
      flag off, the next send on the same request asks for non-verbose ones. */
  method DefaultThenNonVerbose(inner: Inner, request: Request)
    returns (handler: VerbosityHeaderHandler)
    modifies request
    ensures request.headers == old(request.headers)
      + [Header(HeaderName, "verbose"), Header(HeaderName, "non-verbose")]
  {
    handler := new VerbosityHeaderHandler(inner);
    var _ := handler.SendAsync(request);
    handler.SetVerbose(false);
    var _ := handler.SendAsync(request);
  }
}
