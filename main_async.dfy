/** The outcome logic of `MainAsync`. An exception from any step is caught
    and kept in the static field `_toThrow`, which nothing ever clears; the
    run then rethrows it in test mode and otherwise reports whether the
    field is still null. */
module MainAsync {
  import opened Common
  import AdhEvent
  import Paging

  /** How a call of `MainAsync` ends: with a value, or by throwing. */
  datatype Completion = Returned(value: bool) | Threw(error: Exception)

  /** The end of a run, given the exception stored so far. */
  function CompletionOf(test: bool, stored: Option<Exception>): (c: Completion)
    ensures c.Threw? <==> test && stored.Some?
    ensures c.Threw? ==> c.error == stored.value
    ensures c.Returned? ==> (c.value <==> stored.None?)
  {
    if test && stored.Some? then Threw(stored.value) else Returned(stored.None?)
  }

  /** The stored exception after a run whose steps ended with `outcome`: a
      caught exception replaces the stored one, a clean run keeps it. */
  function StoredAfterRun(stored: Option<Exception>, outcome: Outcome): (r: Option<Exception>)
    ensures outcome.Failed? ==> r == Some(outcome.error)
    ensures outcome.Completed? ==> r == stored
  {
    match outcome
    case Failed(e) => Some(e)
    case Completed => stored
  }

  /** The stored exception after a series of runs on the same static state. */
  function StoredAfterRuns(stored: Option<Exception>, outcomes: seq<Outcome>): Option<Exception> {
    if outcomes == [] then stored
    else StoredAfterRun(StoredAfterRuns(stored, outcomes[..|outcomes| - 1]), outcomes[|outcomes| - 1])
  }

  /** After any run that caught an exception, no later run returns true:
      every later call returns false, or rethrows in test mode. */
  lemma {:induction false} FailureIsSticky(stored: Option<Exception>, outcomes: seq<Outcome>, test: bool)
    requires stored.Some? || exists i :: 0 <= i < |outcomes| && outcomes[i].Failed?
    ensures StoredAfterRuns(stored, outcomes).Some?
    ensures CompletionOf(test, StoredAfterRuns(stored, outcomes)) != Returned(true)
  {
    if outcomes != [] {
      var last := |outcomes| - 1;
      if !outcomes[last].Failed? {
        if stored.None? {
          var i :| 0 <= i < |outcomes| && outcomes[i].Failed?;
          assert outcomes[..last][i] == outcomes[i];
        }
        FailureIsSticky(stored, outcomes[..last], test);
      }
    }
  }

  /** The stored exception is the one caught last: runs that complete cleanly
      do not change it. */
  lemma {:induction false} LastFailureStored(stored: Option<Exception>, outcomes: seq<Outcome>, i: nat)
    requires i < |outcomes| && outcomes[i].Failed?
    requires forall j :: i < j < |outcomes| ==> outcomes[j].Completed?
    ensures StoredAfterRuns(stored, outcomes) == Some(outcomes[i].error)
  {
    if i < |outcomes| - 1 {
      LastFailureStored(stored, outcomes[..|outcomes| - 1], i);
    }
  }

  /** The static part of the program. */
  class Program {
    var toThrow: Option<Exception>

    /** The static field starts out null. */
    constructor ()
      ensures toThrow == None
    {
      toThrow := None;
    }

    /** One call of `MainAsync`. The steps before the paging loop and the
        steps after it are given by how they end; the paging loop runs
        only when the steps before it completed, and the steps after it only
        when it completed. The run stores the first exception raised, then
        ends as `CompletionOf` says. */
    method MainAsync(test: bool, before: Outcome, fetch: Paging.Fetch, w: Paging.Window,
                     ghost bound: nat, after: Outcome)
      returns (completion: Completion, requests: seq<Paging.PageRequest>, emitted: seq<AdhEvent.Event>)
      requires Paging.TokenBefore(fetch, w, bound).None?
      modifies this
      ensures before.Failed? ==> requests == [] && emitted == []
      ensures before.Completed? ==> requests != [] && emitted == Paging.Emitted(fetch, w, |requests|)
      ensures before.Completed? ==> Paging.TokenBefore(fetch, w, |requests|).None?
      ensures before.Completed? ==>
                forall i :: 0 <= i < |requests| ==>
                  Paging.TokenBefore(fetch, w, i).Some?
                  && requests[i] == Paging.Request(w, Paging.TokenBefore(fetch, w, i).value)
      ensures var tried :=
                if before.Failed? then before
                else if fetch(requests[|requests| - 1]).Failure? then Failed(fetch(requests[|requests| - 1]).error)
                else after;
              toThrow == StoredAfterRun(old(toThrow), tried)
      ensures completion == CompletionOf(test, toThrow)
    {
      requests, emitted := [], [];
      var outcome := before;
      if outcome.Completed? {
        var paged;
        requests, emitted, paged := Paging.PageThrough(fetch, w, bound);
        outcome := if paged.Failed? then paged else after;
      }
      if outcome.Failed? {
        toThrow := Some(outcome.error);
      }
      if test && toThrow.Some? {
        completion := Threw(toThrow.value);
        return;
      }
      completion := Returned(toThrow.None?);
    }
  }
}
