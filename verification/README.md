# ADT Pulse client core, modelled in Dafny

`AdtApi` is a client for the ADT Pulse home-security web portal, which has no API.
It reads the portal's state by scraping server-rendered HTML, and it changes that
state by re-submitting forms whose tokens it scrapes first. This project models
that core:

- **Extraction rules** (`page.dfy`, built on `query.dfy`, `labels.dfy`, `numbers.dfy`).
  A parsed page is its elements in document order. Each element has a tag, attributes,
  a parent id, inner text and the text of its next sibling. The rules covered are:
  - the summary: icon URL, plus the arm and mode labels, normalised;
  - the arm-option and mode-option listings, with the adjacency rule that takes a
    row's label from the submit input in the same parent;
  - the log rows;
  - the token bag for an arm change.
- **Request protocol** (`transport.dfy`, `client.dfy`). The network is a script of
  replies. `Follow` is the 307-following loop, written as a function. The class
  `Client.AdtApi` holds the `Referer` header, the replies still to come, and a trace of
  the requests sent (each with the referer in force) and the pauses taken.
  Its methods are:
  - the transport loop itself;
  - sign-in and sign-out, which succeed on 302;
  - the four page readers;
  - the two-phase arm change, which clears the referer on every path after it sets it;
  - the mode change, with its single fetch-pause-retry.
  Each method's `ensures` gives the result, the trace and the remaining script as
  functions of the old state.

`.NET` ordinal comparisons are modelled in `text.dfy`. Case-insensitive comparison
folds ASCII letters only. `int.Parse` is an optional sign, then ASCII digits, then a
32-bit range check. `$"{mode}"` is modelled as decimal text. `ParseShow` proves that
the text parses back to the mode.

Points where the model follows the code literally:
- Labels are split on `'\n'`, `'\r'` and `' '` only. Tabs, for example, stay inside
  a word.
- The icon URL is the string `AdtDomain + src`, not a URI resolution. When `src` is
  absent, it is `AdtDomain` alone, as C# interpolates null as empty.
- Arm and mode changes check only that a `Location` header exists and ends with the
  suffix. The status code is not checked.
- Page readers parse the body of whatever final response arrives. Its status is
  not checked either.

## Model

| member | source | states |
|---|---|---|
| Query.FindFirst | ADT_UWP/ADT_UWP/AdtApi.cs:205-213 | LINQ `First`: the index returned satisfies the predicate and no earlier element does; None exactly when no element does |
| Query.FindAll | ADT_UWP/ADT_UWP/AdtApi.cs:248-253 | the Where/Select/Where pipeline: fails exactly when some row fails; every item comes from a kept row |
| Query.FindAllAppend | ADT_UWP/ADT_UWP/AdtApi.cs:248-253 | document order: the listing of a + b is the listing of a followed by that of b, and fails if either fails |
| Query.FindAllComplete | ADT_UWP/ADT_UWP/AdtApi.cs:248-253 | every kept row's item is in a successful listing |
| Query.FindAllOne | ADT_UWP/ADT_UWP/AdtApi.cs:248-253 | one element: a failing row fails the listing, a skipped row adds nothing, a kept row adds exactly its one item; with FindAllAppend this fixes every listing |
| Query.FindAllSnoc | ADT_UWP/ADT_UWP/AdtApi.cs:248-253 | appending one element extends the listing by exactly that element's row: fail, nothing, or its item at the end |
| Query.Enumerate | ADT_UWP/ADT_UWP/AdtApi.cs:248-253 | the deferred query as written: it throws on enumeration exactly when some row fails, and otherwise yields what FindAll returns |
| Labels.RemoveColons | ADT_UWP/ADT_UWP/AdtApi.cs:217 | `Replace(":", "")`: the result's characters are exactly the input's non-colon characters |
| Labels.RemoveColonsAppend | ADT_UWP/ADT_UWP/AdtApi.cs:217 | removing colons distributes over concatenation, so the kept characters keep their order and their number |
| Labels.RemoveColonsChar | ADT_UWP/ADT_UWP/AdtApi.cs:217 | one character is dropped exactly when it is a colon; with the append lemma this fixes the result for every input |
| Labels.Tokens | ADT_UWP/ADT_UWP/AdtApi.cs:217 | split with RemoveEmptyEntries: every token is non-empty, free of `\n`, `\r` and space, and made of input characters |
| Labels.TokensAtSeparator | ADT_UWP/ADT_UWP/AdtApi.cs:217 | every `\n`, `\r` or space ends a token: the split of a + [c] + b is the split of a followed by the split of b |
| Labels.TokensOfWord | ADT_UWP/ADT_UWP/AdtApi.cs:217 | a separator-free non-empty string is a single token; with TokensAtSeparator this fixes the split for every input |
| Labels.TokensConcat | ADT_UWP/ADT_UWP/AdtApi.cs:217 | the tokens, concatenated, are the input's non-separator characters in their original order |
| Labels.JoinShape | ADT_UWP/ADT_UWP/AdtApi.cs:217 | joining words with " " gives no leading, trailing or doubled space, and adds no character except spaces |
| Labels.TokensOfJoin | ADT_UWP/ADT_UWP/AdtApi.cs:217-218 | splitting a join of words gives back exactly those words |
| Labels.NormalizeLabel | ADT_UWP/ADT_UWP/AdtApi.cs:217-218 | the label contains no `:`, `\n` or `\r`, has no leading or trailing space, and never has two spaces in a row |
| Labels.NormalizeLabelWords | ADT_UWP/ADT_UWP/AdtApi.cs:217-218 | the label's words are the colon-free input's words in order; together they are all its non-separator characters |
| Labels.NormalizeLabelIdempotent | ADT_UWP/ADT_UWP/AdtApi.cs:217-218 | normalising a normalised label leaves it unchanged |
| Numbers.ParseInt32 | ADT_UWP/ADT_UWP/AdtApi.cs:317 | `int.Parse`: a string with no digit fails; an accepted string is an optional `+` or `-` followed by digits only, and the result is their signed value |
| Numbers.ParseInt32Accepts | ADT_UWP/ADT_UWP/AdtApi.cs:317 | every optional sign followed by one or more digits parses to its signed value when that is within the 32-bit range, and fails otherwise |
| Numbers.Digits | ADT_UWP/ADT_UWP/AdtApi.cs:446 | decimal rendering: non-empty, all digits, no leading zero |
| Numbers.ParseShow | ADT_UWP/ADT_UWP/AdtApi.cs:317 | parsing the text that `$"{mode}"` renders gives the same 32-bit mode back |
| Page.LabelAfterSpec | ADT_UWP/ADT_UWP/AdtApi.cs:208-213 | defined exactly when the first anchor whose href ends with the suffix (case-insensitive) has a next sibling; its value is that sibling's text, normalised |
| Page.SummaryOfSpec | ADT_UWP/ADT_UWP/AdtApi.cs:205-219 | null exactly when the "System Icon" img, the panel.jsp anchor's label or the mode.jsp anchor's label is missing; otherwise IconUrl is AdtDomain followed by the first icon's src, and both labels are normalised labels read after the first matching anchors |
| Page.DisplayValue | ADT_UWP/ADT_UWP/AdtApi.cs:383-388 | adjacency rule: fails exactly when no input in the same parent has type "submit" (case-insensitive); otherwise it is the value of the first such input |
| Page.ArmOptions | ADT_UWP/ADT_UWP/AdtApi.cs:248-253 | fails exactly when some input named "value" (ordinal) has no submit sibling; otherwise every pair has a non-empty key and label, and comes from such an input's value and display value |
| Page.ArmOptionsComplete | ADT_UWP/ADT_UWP/AdtApi.cs:248-253 | every "value" input with a non-empty value and a non-empty display value is listed |
| Page.ArmListingStep | ADT_UWP/ADT_UWP/AdtApi.cs:248-253 | the arm listing is built input by input: each element adds at most one pair, the one its row keeps, after the earlier pairs; a "value" input without a submit sibling fails it |
| Page.DeferredArmListingThrows | ADT_UWP/ADT_UWP/AdtApi.cs:248-253 | a page whose only "value" input has no submit sibling: the deferred query throws, and the corrected listing is null |
| Page.ModeOptions | ADT_UWP/ADT_UWP/AdtApi.cs:314-319 | fails exactly when some "shiftModeId" input (case-insensitive) has a missing or unparsable value or no submit sibling; otherwise every pair has a non-empty label, and its key is that input's parsed value |
| Page.ModeOptionsComplete | ADT_UWP/ADT_UWP/AdtApi.cs:314-319 | every "shiftModeId" input with a parsable value and a non-empty display value is listed |
| Page.ModeListingStep | ADT_UWP/ADT_UWP/AdtApi.cs:314-319 | the mode listing is built input by input: each element adds at most one pair, after the earlier pairs; a "shiftModeId" input with a bad value or no submit sibling fails it |
| Page.LogOf | ADT_UWP/ADT_UWP/AdtApi.cs:366-369 | every entry is the inner text of a tr whose class is p_rowLight or p_rowDark (case-insensitive); a page with no such row gives the empty sequence |
| Page.LogOfAppend | ADT_UWP/ADT_UWP/AdtApi.cs:366-369 | the log keeps document order: log(a + b) == log(a) + log(b) |
| Page.LogOfComplete | ADT_UWP/ADT_UWP/AdtApi.cs:366-369 | every matching row's inner text is in the log |
| Page.LogOfOne | ADT_UWP/ADT_UWP/AdtApi.cs:366-369 | one element adds exactly its inner text when it is a log row and nothing otherwise; with LogOfAppend this fixes the log of every page |
| Page.InputValues | ADT_UWP/ADT_UWP/AdtApi.cs:412-420 | the GroupBy/ToDictionary step: no key is empty |
| Page.InputValuesFirstWins | ADT_UWP/ADT_UWP/AdtApi.cs:412-420 | a name is a key exactly when some input carries it; its value is the value of the first such input |
| Page.ArmContent | ADT_UWP/ADT_UWP/AdtApi.cs:422-429 | the bag's fields are exactly sat, fi, vn, ft and value, in that order, and value is the argument |
| Page.ArmContentTokens | ADT_UWP/ADT_UWP/AdtApi.cs:412-434 | the bag exists exactly when fi, vn, ft and one of sat or tsat are present; each field is the first such input's value, with sat falling back to tsat |
| Transport.FollowShape | ADT_UWP/ADT_UWP/AdtApi.cs:467-507 | at least one request; every request has the same verb, form and referer; the first goes to the given URL; a returned response is never 307; the unread replies are a suffix of the script |
| Transport.FollowRedirectChain | ADT_UWP/ADT_UWP/AdtApi.cs:467-507 | k 307 replies, then any reply that does not redirect: exactly k + 1 requests, each after the first to the previous Location; a non-307 response (302 included) is returned unchanged, and a transport error or a 307 without a Location gives no response |
| Transport.FollowExhausted | ADT_UWP/ADT_UWP/AdtApi.cs:467-507 | a script of nothing but redirects: one request per reply plus one, each after the first to the previous Location, then no response and nothing left |
| Client.SignInForm | ADT_UWP/ADT_UWP/AdtApi.cs:145-154 | the form has username, password and login = "Sign In", plus keeploggedin = "YES" exactly when keepLoggedIn is set |
| Client.ModeForm | ADT_UWP/ADT_UWP/AdtApi.cs:444-447 | a single shiftModeId field whose text parses back to the mode |
| Client.AdtApi.constructor | ADT_UWP/ADT_UWP/AdtApi.cs:105-113 | a fresh session has no referer, an empty trace and the given network script |
| Client.AdtApi.Send | ADT_UWP/ADT_UWP/AdtApi.cs:467-507 | the do-while loop returns what Follow returns; the trace gains exactly Follow's requests and the script loses exactly the replies it read |
| Client.AdtApi.HttpGet | ADT_UWP/ADT_UWP/AdtApi.cs:467-483 | a GET with an empty form, followed through 307s as Follow says |
| Client.AdtApi.HttpPost | ADT_UWP/ADT_UWP/AdtApi.cs:491-507 | a POST whose same form is re-sent at each 307 Location, as Follow says |
| Client.AdtApi.SignIn | ADT_UWP/ADT_UWP/AdtApi.cs:143-165 | POSTs SignInForm, with keepLoggedIn true unless the caller says otherwise; true iff the final status is 302, false on a transport error |
| Client.AdtApi.SignOut | ADT_UWP/ADT_UWP/AdtApi.cs:171-182 | GETs the sign-out page; true iff the final status is 302, false on a transport error |
| Client.AdtApi.GetSummary | ADT_UWP/ADT_UWP/AdtApi.cs:188-225 | null on a transport error, otherwise SummaryOf of the fetched page |
| Client.AdtApi.ListArmOptions | ADT_UWP/ADT_UWP/AdtApi.cs:231-259 | null on a transport error, otherwise ArmOptions of the fetched page |
| Client.AdtApi.ListModes | ADT_UWP/ADT_UWP/AdtApi.cs:297-325 | null on a transport error, otherwise ModeOptions of the fetched page |
| Client.AdtApi.GetLog | ADT_UWP/ADT_UWP/AdtApi.cs:349-375 | null on a transport error, otherwise the (possibly empty) LogOf of the fetched page |
| Client.AdtApi.GetArmContent | ADT_UWP/ADT_UWP/AdtApi.cs:395-435 | one fresh GET of the arm page; null on a transport error, otherwise ArmContent of that page |
| Client.AdtApi.SetArm | ADT_UWP/ADT_UWP/AdtApi.cs:267-291 | no bag: false, no POST, and the referer untouched. Otherwise it POSTs the bag with the arm page as referer, returns true iff the Location ends with /controldone.jsp (case-insensitive), and the referer is null afterwards on every path |
| Client.AdtApi.SetModeOneTry | ADT_UWP/ADT_UWP/AdtApi.cs:442-460 | POSTs ModeForm; true iff the final Location ends with /summary.jsp (case-insensitive), false on a transport error |
| Client.AdtApi.SetMode | ADT_UWP/ADT_UWP/AdtApi.cs:333-343 | a successful first attempt ends the call. Otherwise exactly one mode-page fetch, one 1000 ms delay and one more attempt follow, and the result is that attempt's |

## Findings

| source | as written | input that shows it | evidently intended | confidence | as-written member | corrected member |
|---|---|---|---|---|---|---|
| ADT_UWP/ADT_UWP/AdtApi.cs:248-253 | the LINQ query is returned unevaluated, so `GetDisplayValue` throws only when the caller enumerates, outside the method's try/catch (`ListModes`, lines 314-319, and its `int.Parse` behave the same way) | a page whose only input named "value" has no submit input in its parent | the listing returns null, like every other failure of the method | not executed | Query.Enumerate | Page.ArmOptions |

`Page.DeferredArmListingThrows` shows this input: the deferred query throws, and
`ArmOptions` is null. The rest of the model uses the corrected listings, so a
failing row fails the whole listing.

## Left out

- Real networking is left out: `HttpClient`, cookies, the User-Agent header, and
  form URL-encoding. Responses come from a script of replies instead. An exhausted
  script or a `Fault` reply stands for any exception thrown by the transport or while
  reading the body.
- `Uri` and `AbsoluteUri` normalisation is left out. Locations are compared as given.
  A 307 with no `Location` is modelled as a failure before the next request, because
  requesting a null URI throws.
- HTML parsing (`HtmlDocument.LoadHtml`, `Descendants`, `NextSibling`, `InnerText`)
  is a foreign library. The parsed page is an input: elements in document order, with
  tag and attribute names lower-cased as the parser stores them.
- Time: the one-second wait in `SetMode` is recorded as a `Delay(1000)` event.
  Time, `async`/`await` and concurrency are not modelled.
- The static `Current` singleton (lines 95 and 118-134) is left out. It is
  process-wide plumbing with no behaviour of its own.
- Numbers.ParseInt32: culture-specific signs and the leading or trailing whitespace
  that `int.Parse` accepts are not modelled.
- Case-insensitive comparison (`Text.EqualsIgnoreCase`) folds ASCII letters only. .NET folds all of
  Unicode.
- Transport.Follow: the C# loop has no bound and follows a 307 cycle forever. The
  model bounds it by the finite script, so an endless chain ends in a failure when
  the script runs out.
- Session loss and cookie state are not modelled. Neither is the portal's reaction
  to a stale token: it is just a reply in the script.
