# PI to ADH read-only data sample: a verified model

The sample reads PI point data from a stream of the data service. It
prints the data as events and pages through a time window two events at a
time. This project models the parts of it that carry their own logic:

- **Event renderers.** The `ToString` of the three event record types:
  - `PItoADHEvent`: invariant culture, separators between segments only.
  - `PItoADHFloatType`: a separator after every segment up to the annotation flag, and none between the state code and the state name.
  - `PItoOCSType`: a separator before every segment, and five independently nullable fields.

  Each `ToString` is an imperative method that appends to a string step by step under the source's null checks. It is proved against a list of `Name: text` segments and one of four separator layouts (`Rendering.Joined`, `Prefixed`, `Terminated`, `Concatenated`).
- **Verbosity header handler.** Both copies are classes with a mutable `verbose` flag that defaults to true. `SendAsync` appends one `accept-verbosity` header to the request's header list in place, then hands the request to the next handler. The OCS copy tests the flag the other way round and is proved to behave the same.
- **Paging loop** (step 5 of `MainAsync`). It starts from the empty continuation token and makes one request per page with fixed window parameters. It emits each page's results and carries the page's token into the next request. It stops once the token is null or empty. The data service is a function from request to page or exception.
- **Run outcome.** The static `_toThrow` keeps the exception a run caught. A run rethrows it in test mode and otherwise returns whether the field is null. Nothing ever clears the field.

Timestamps, floats and integers are turned into text by an opaque `Culture` record of functions. Booleans render as `True`/`False`, and a null string renders as the empty string.

The specification says a value and a system state code never appear together. The code does not enforce this: `PItoADHEvent.ToString` checks the two fields independently, so an event holding both shows both. The model follows the code (`AdhEvent.ValueAndStateBothShown`).

## Model

| member | source | states |
|---|---|---|
| Common.BoolText | PItoADHReadOnly/PItoADHEvent.cs:37-39 | A flag interpolates as `True` exactly when it is set and as `False` otherwise. |
| Common.StringText | PItoADHReadOnly/PItoADHEvent.cs:46 | A null `DigitalStateName` interpolates as the empty string, and any other name as itself. |
| Rendering.JoinedAppend | PItoADHReadOnly/PItoADHEvent.cs:30-47 | Joining two non-empty runs of segments puts exactly one `, ` between them. |
| Rendering.JoinedLast | PItoADHReadOnly/PItoADHEvent.cs:39-46 | A joined run ends with its last segment, with no trailing separator. |
| Rendering.JoinedLength | PItoADHReadOnly/PItoADHEvent.cs:30-47 | A joined run of n segments carries n - 1 two-character separators. |
| Rendering.PrefixedIsJoined | PItoOCSReadOnly/PItoOCSType.cs:27-34 | Putting a separator before every segment gives one leading separator and then the joined segments. |
| Rendering.PrefixedOpening | PItoOCSReadOnly/PItoOCSType.cs:27-28 | A prefixed run opens with a separator, the first segment, a separator and the second segment. |
| Rendering.JoinedOpening | PItoADHReadOnly/PItoADHEvent.cs:30-37 | A joined run of three or more segments opens with the first, a separator, the second and a separator. |
| Rendering.TerminatedOpening | PItoADHReadOnly/PItoADHFloatType.cs:28-35 | Segments each followed by a separator open with the first, a separator, the second and a separator, whatever comes after them. |
| Rendering.TerminatedClosing | PItoADHReadOnly/PItoADHFloatType.cs:37 | Segments each followed by a separator end with the last of them and its separator. |
| Rendering.TerminatedThenPair | PItoADHReadOnly/PItoADHFloatType.cs:37-42 | Followed by a pair appended back to back, they end with the last segment, its separator and the pair, with nothing between the two. |
| Rendering.TerminatedIsJoined | PItoADHReadOnly/PItoADHFloatType.cs:28-37 | Putting a separator after every segment gives the joined segments and one trailing separator. |
| AdhEvent.ToString | PItoADHReadOnly/PItoADHEvent.cs:25-50 | The builder's appends under the two null checks produce exactly the event's segments joined by `, `. |
| AdhEvent.TextOpening | PItoADHReadOnly/PItoADHEvent.cs:30-37 | The text begins with `Timestamp: …, `. Next comes the value segment if the value is non-null, otherwise the IsQuestionable segment. |
| AdhEvent.SegmentPresence | PItoADHReadOnly/PItoADHEvent.cs:32-47 | The value segment appears iff the value is non-null. The three flags always appear. The code and name segments appear iff the code is non-null, whatever the name holds. The segment count follows from these. |
| AdhEvent.TextClosing | PItoADHReadOnly/PItoADHEvent.cs:37-47 | The text ends with the three flags joined in declaration order, followed by the state pair when present. Without a code it ends with the `IsAnnotated` segment, with no trailing separator. |
| AdhEvent.ValueOnlyTestEvent | PItoADHReadOnlyTests/E2ETests.cs:91-95 | The test's value-only event shows timestamp, value and three `False` flags, and no state segment. |
| AdhEvent.StateOnlyTestEvent | PItoADHReadOnlyTests/E2ETests.cs:107-112 | The test's state-code event shows no value segment, and shows code 246 followed by `I/O Timeout`. |
| AdhEvent.ValueAndStateBothShown | PItoADHReadOnly/PItoADHEvent.cs:32-47 | An event holding both a value and a code shows all seven segments. |
| AdhFloatType.ToString | PItoADHReadOnly/PItoADHFloatType.cs:24-46 | The appends produce the leading segments, each followed by `, `, and then the state segments with no separator. |
| AdhFloatType.AppendState | PItoADHReadOnly/PItoADHFloatType.cs:39-43 | Under the code's null check, the code and the name are appended back to back. |
| AdhFloatType.SameSegmentsAsEvent | PItoADHReadOnly/PItoADHFloatType.cs:28-43 | The segments and their fixed order (timestamp, value, flags, code, name) are those of `PItoADHEvent`. |
| AdhFloatType.TextOpening | PItoADHReadOnly/PItoADHFloatType.cs:28-33 | The text begins with `Timestamp: …, `, then `Value: …, ` when the value is non-null. |
| AdhFloatType.SegmentPresence | PItoADHReadOnly/PItoADHFloatType.cs:30-43 | The value segment appears iff the value is non-null. The three flags close the leading part. The state segments appear iff the code is non-null, as code then name. |
| AdhFloatType.TextClosing | PItoADHReadOnly/PItoADHFloatType.cs:37-43 | Without a code the text ends in `IsAnnotated: …, `. With one, that segment and its separator are followed by the code and name with nothing between them. |
| AdhFloatType.LengthAgainstEvent | PItoADHReadOnly/PItoADHFloatType.cs:37-42 | Against `PItoADHEvent` on the same fields and under the same culture, the text is 2 characters longer without a code and 2 shorter with one. So the two renderings never agree. |
| OcsType.AppendIfPresent | PItoOCSReadOnly/PItoOCSType.cs:30-34 | A guarded append adds `, Name: text` when the field is non-null and nothing otherwise. |
| OcsType.ToString | PItoOCSReadOnly/PItoOCSType.cs:24-37 | The two fixed appends and five guarded appends produce the segments, each behind a separator. |
| OcsType.SegmentFields | PItoOCSReadOnly/PItoOCSType.cs:27-34 | The fields shown are timestamp, value, then each nullable field in declaration order iff it is non-null. |
| OcsType.SegmentPresence | PItoOCSReadOnly/PItoOCSType.cs:27-34 | The segment count is 2 plus the number of non-null fields. Timestamp and value come first. Each field shows iff its own property is non-null, so the name does not depend on the code. |
| OcsType.TextLayout | PItoOCSReadOnly/PItoOCSType.cs:27-36 | The text is one leading separator followed by the joined segments, and it ends with the last segment. |
| OcsType.TextOpening | PItoOCSReadOnly/PItoOCSType.cs:27-28 | The text always opens with `, Timestamp: …, Value: …`, because the value is never null. |
| AdhVerbosity.VerbosityHeader | PItoADHReadOnly/VerbosityHeaderHandler.cs:19-26 | The header is named `accept-verbosity`. Its value is `verbose` iff the flag is on and `non-verbose` iff it is off. |
| AdhVerbosity.Decorated | PItoADHReadOnly/VerbosityHeaderHandler.cs:21-25 | A null request stays null. Any other request keeps its headers in front and gains exactly one, the verbosity header. |
| AdhVerbosity.VerbosityHeaderHandler.constructor | PItoADHReadOnly/VerbosityHeaderHandler.cs:9-12 | The flag is whatever was passed, true by default. |
| AdhVerbosity.VerbosityHeaderHandler.SetVerbose | PItoADHReadOnly/VerbosityHeaderHandler.cs:14 | The setter changes the flag only. |
| AdhVerbosity.VerbosityHeaderHandler.SendAsync | PItoADHReadOnly/VerbosityHeaderHandler.cs:16-29 | The request's headers gain the header the flag selects, in place. A null request is passed on as null. The flag is unchanged. What the next handler answers, a response or an exception, is returned unchanged. |
| AdhVerbosity.HeaderDeterminesSetting | PItoADHReadOnly/VerbosityHeaderHandler.cs:19-26 | The two settings add different headers. |
| AdhVerbosity.DecoratedTwice | PItoADHReadOnly/VerbosityHeaderHandler.cs:21-25 | Two sends of one request add two headers, in the order of the sends. |
| AdhVerbosity.DefaultThenNonVerbose | PItoADHReadOnly/VerbosityHeaderHandler.cs:9-29 | A default handler sends `verbose`. After the setter turns the flag off, the next send on the same request adds `non-verbose`. |
| OcsVerbosity.VerbosityHeader | PItoOCSReadOnly/VerbosityHeaderHandler.cs:19-26 | The header is `accept-verbosity`, with value `non-verbose` iff the flag is off. |
| OcsVerbosity.VerbosityHeaderHandler.constructor | PItoOCSReadOnly/VerbosityHeaderHandler.cs:9-12 | The flag is whatever was passed, true by default. |
| OcsVerbosity.VerbosityHeaderHandler.SetVerbose | PItoOCSReadOnly/VerbosityHeaderHandler.cs:14 | The setter changes the flag only. |
| OcsVerbosity.VerbosityHeaderHandler.SendAsync | PItoOCSReadOnly/VerbosityHeaderHandler.cs:16-29 | With the test inverted, one header is appended in place, a null request is passed on, and the next handler's response or exception is returned unchanged. For every setting and every request, null or not, the request ends up exactly as the ADH handler's `Decorated` leaves it. |
| OcsVerbosity.SameHeaderAsAdh | PItoOCSReadOnly/VerbosityHeaderHandler.cs:19-26 | For either setting, the inverted test picks the header the ADH handler picks. |
| Paging.IsNullOrEmpty | PItoADHReadOnly/Program.cs:102 | The loop condition holds for a null token and for the empty token, and for nothing else. |
| Paging.Request | PItoADHReadOnly/Program.cs:88-93 | Every request has the same stream, start, end, `Inside` boundary and page size 2. Only the token varies. |
| Paging.PageThrough | PItoADHReadOnly/Program.cs:88-102 | At least one fetch is made, the first with the empty token. Each later fetch carries the token the previous page returned. The loop stops at the first failure or null-or-empty token. The emitted events are the pages' results in fetch order. A failed fetch ends the loop with its exception. |
| Paging.NextFetch | PItoADHReadOnly/Program.cs:93-102 | A fetch that fails ends the loop and adds no results. A fetch that succeeds adds its page's results. The next fetch is made iff the page's token is neither null nor empty, and then it carries that token. |
| Paging.NotMadeStaysNotMade | PItoADHReadOnly/Program.cs:91-102 | Once the loop has stopped, no later fetch is made. |
| Paging.FetchCountUnique | PItoADHReadOnly/Program.cs:91-102 | The number of fetches is determined by the service's answers. |
| Paging.PagesNeeded | PItoADHReadOnly/Program.cs:88 | Reading n events two at a time takes one fetch per two events, and at least one fetch. |
| Paging.ListServiceTokens | PItoADHReadOnly/Program.cs:93-102 | Against a service serving a stored list, fetch k is made exactly while 2k events do not exhaust the list, and its token names offset 2k. |
| Paging.ListServiceResults | PItoADHReadOnly/Program.cs:95-98 | Against that service, fetch k emits events 2k to 2k + 2, as far as the list goes. |
| Paging.ListServiceRequests | PItoADHReadOnly/Program.cs:89-100 | Against that service, the requests carry the tokens of offsets 0, 2, 4 and so on. |
| Paging.ListServiceEmitted | PItoADHReadOnly/Program.cs:95-100 | Against that service, the first k fetches emit the list's first 2k events, or all of them. |
| Paging.ReadList | PItoADHReadOnly/Program.cs:88-102 | Paging through a stored list emits every event once, in order, in the number of fetches the list needs, and completes. |
| Paging.ReadFourEvents | PItoADHReadOnlyTests/E2ETests.cs:89-113 | The four events the test writes are read in two fetches, the second made with the first page's token. |
| MainAsync.CompletionOf | PItoADHReadOnly/Program.cs:140-145 | A run throws iff it is in test mode and an exception is stored, and then throws the stored one. Otherwise it returns true iff nothing is stored. |
| MainAsync.StoredAfterRun | PItoADHReadOnly/Program.cs:130-134 | A caught exception replaces the stored one. A clean run leaves the stored one in place. |
| MainAsync.FailureIsSticky | PItoADHReadOnly/Program.cs:17 | After any run that caught an exception, no later run returns true. |
| MainAsync.LastFailureStored | PItoADHReadOnly/Program.cs:133 | The stored exception is the one caught last. |
| MainAsync.Program.constructor | PItoADHReadOnly/Program.cs:17 | The static field starts out null. |
| MainAsync.Program.MainAsync | PItoADHReadOnly/Program.cs:58-145 | The paging loop runs only if the steps before it completed, and then makes exactly the chained fetches `Paging.PageThrough` makes. The first exception raised is stored. The call ends as `CompletionOf` says for the new stored value. |

## Left out

- Configuration loading, authentication and the construction of the SDK services: external libraries and file I/O.
- Console output, including the banner and the step narration. The events the paging loop prints are returned as `emitted`.
- The stream lookup (step 2) and the window, table, range, interpolated and filtered queries (steps 3-4 and 6-8). Their semantics live in the data service. The model sees only whether each step completed or raised an exception, as the `before` and `after` parameters of `MainAsync.Program.MainAsync`.
- Text formatting of timestamps, floats and integers, which depends on the culture. These are opaque functions of `Common.Culture`. The ADH event uses the invariant culture and the other two types the current one. Both are simply a `Culture` argument here.
- `async`/`await`, cancellation tokens and the rest of the handler pipeline. `base.SendAsync` is the `inner` function, fixed when the handler is constructed; it answers with a response or an exception, and the library's own exception for a null request is part of it. In the source it is the `InnerHandler` the pipeline assigns later.
- The static `Main`, which only waits for `MainAsync`.
- The event types' property setters. An event is an immutable record here, and a changed property is a new record.
- Paging.PageThrough: the source loop has no bound of its own. The model requires a `bound`: a number of fetches after which the service has failed or returned a null or empty token. A service that hands out non-empty tokens forever is outside the model.
