/** `VerbosityHeaderHandler` of the earlier OCS sample: the same handler as
    the ADH one, with the branch on the flag written the other way round.
    Its send is proved to leave every request as the ADH handler does. */
module OcsVerbosity {
  import opened Common
  import opened Http
  import AdhVerbosity

  const HeaderName := "accept-verbosity"

  /** The header a send adds, tested on the flag being off first. */
  function VerbosityHeader(verbose: bool): (h: Header)
    ensures h.name == HeaderName
    ensures h.value == "non-verbose" <==> !verbose
  {
    if !verbose then Header(HeaderName, "non-verbose") else Header(HeaderName, "verbose")
  }

  class VerbosityHeaderHandler {
    var verbose: bool
    /** The handler `base.SendAsync` passes the request on to. */
    const inner: Inner

    /** The flag is on unless the caller says otherwise. */
    constructor (inner: Inner, verbose: bool := true)
      ensures this.verbose == verbose && this.inner == inner
    {
      this.inner := inner;
      this.verbose := verbose;
    }

    /** The `Verbose` setter. */
    method SetVerbose(verbose: bool)
      modifies this
      ensures this.verbose == verbose
    {
      this.verbose := verbose;
    }

    /** Adds the header chosen by the flag to a non-null request, then passes
        the request on and returns what the inner handler answers, a response
        or the exception it throws, unchanged.
        For every setting and every request, null or not, the request ends up
        as the ADH handler leaves it. */
    method SendAsync(request: Request?) returns (response: Result<Response>)
      modifies request
      ensures request != null ==> request.headers == old(request.headers) + [VerbosityHeader(verbose)]
      ensures View(request) == AdhVerbosity.Decorated(verbose, old(View(request)))
      ensures response == inner(AdhVerbosity.Decorated(verbose, old(View(request))))
    {
      if !verbose {
        if request != null {
          request.headers := request.headers + [Header(HeaderName, "non-verbose")];
        }
      } else {
        if request != null {
          request.headers := request.headers + [Header(HeaderName, "verbose")];
        }
      }
      SameHeaderAsAdh(verbose);
      response := inner(View(request));
    }
  }

  /** The inverted test picks the same header as the ADH handler for either
      setting. */
  lemma SameHeaderAsAdh(verbose: bool)
    ensures VerbosityHeader(verbose) == AdhVerbosity.VerbosityHeader(verbose)
  {
  }
}
