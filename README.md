# GitHub repository search stream, modelled in Dafny

`src/index.ts` is a search box. Its `input`, `focus` and `blur` events are
merged into one stream. The stream then runs these stages in order:

- it is debounced by 400 ms;
- `distinctUntilChanged` removes consecutive repeats;
- focus events are filtered out;
- `switchMap` starts one GitHub search request per event, using the field's
  text with its first space turned into `+`;
- the JSON reply is normalised to `{ total, items }`, keeping ten fields per
  repository;
- any failure becomes an `Error` value.

The subscriber logs an `Error` and renders any other value.

The model has one module per part of that pipeline:

- `Wrappers` holds the `Option` and `Result` types.
- `Query` holds the first-space replacement, the request URL, and its
  inverse `SearchTerm`.
- `Json` holds the decoded JSON values, plus JavaScript's `undefined`. It
  also models a property read, which throws a `TypeError` on `null` or
  `undefined`.
- `Normalizer` holds the `map` projection and the fault boundary, `Resolve`.
  `Resolve` turns a fetch outcome into the value the inner observable emits.
- `Stages` holds pure, sequence-level specifications of the stages:
  - `Settled` and `Debounced` specify debounce;
  - `Distinct` specifies `distinctUntilChanged`;
  - `NonFocus` specifies the focus filter;
  - `Requests` gives the URLs that `switchMap` requests.
- `Stream` holds the class `SearchStream`, the subscribed pipeline as one
  object. Its fields are:
  - the debounce timer's pending event and clock;
  - the last event dedup let through;
  - the switchMap request counter and in-flight flag;
  - the URLs handed to `fetch`;
  - what the subscriber rendered and logged.

  Ghost histories tie the object's state to the `Stages` specifications. Its
  invariant is `Valid()`.

Where the code and its documented intent differ, the model follows the code:

- `String.prototype.replace` with a string pattern replaces only the first
  space, not every space.
- The field's value is not trimmed.
- The term is not URL-encoded.
- The HTTP status is never inspected. A 500 whose body has `items` is
  rendered, and a 200 without `items` is an `Error` (a `TypeError` from
  `res.items.map`).
- A missing `total_count` is not a failure; `total` is then `undefined`.
- `distinctUntilChanged()` with no comparator compares the DOM `Event`
  objects by identity, not by content. After `debounceTime`, no two
  consecutive emitted events are the same object, so dedup never suppresses
  anything (`Stages.DistinctNoopAfterDebounce`).

One choice is the model's own rather than the code's. When the next event
arrives exactly 400 ms after the pending one, `src/index.ts:82` does not say
whether the debounce timer or the DOM event runs first; the browser's event
loop decides. The model lets the timer win such a tie, so the pending event
goes through.

## Model

| member | source | states |
|---|---|---|
| Query.IndexOf | src/index.ts:88 | finds the first occurrence of a character; `None` exactly when the character is absent |
| Query.ReplaceFirst | src/index.ts:88 | `replace(' ', '+')` keeps the string's length |
| Query.ReplaceFirstAbsent | src/index.ts:88 | `replace` leaves a string without the pattern unchanged |
| Query.ReplaceFirstAt | src/index.ts:88 | when the pattern first occurs at `i`, `replace` changes that character and no other |
| Query.ReplaceFirstSplices | src/index.ts:88 | `replace` with a string pattern changes only the first occurrence; the prefix before it and the suffix after it are kept, and with no occurrence the string is unchanged |
| Query.OnlyFirstSpaceReplaced | src/index.ts:88 | the search term has the field's length; with no space it is the field's value; otherwise the first space becomes `+` and every later space stays |
| Query.SearchTermOf | src/index.ts:88 | definition: the term is the field's value with its first space turned into `+` (its properties are `Query.OnlyFirstSpaceReplaced`) |
| Query.QueryString | src/index.ts:89 | definition: `?q=`, the term, then `+language:javascript&sort=stars` |
| Query.RequestUrl | src/index.ts:89-91 | definition: the base URL followed by the query string (its shape and inverse are `Query.SearchTermOfRequest`) |
| Query.SearchTerm | src/index.ts:89-91 | a URL accepted by the parser is exactly base URL, `?q=`, the term, then `+language:javascript&sort=stars` |
| Query.SearchTermOfRequest | src/index.ts:89-91 | the fetched URL is base URL + `?q=` + term + `+language:javascript&sort=stars`, and the term can be read back from it (round trip) |
| Query.RequestUrlSeparates | src/index.ts:88-91 | different search terms give different request URLs |
| Query.SpaceAndPlusCollide | src/index.ts:88-91 | with no encoding, a value whose only space is at `i` requests the same URL as the value with `+` typed at `i` |
| Query.SecondSpaceKept | src/index.ts:88-91 | when the value has a second space, typing `+` for the first one gives a different URL, because the second space then becomes `+` while the original keeps it |
| Json.Nullish | src/index.ts:96 | definition: the values a property read throws on, `null` and `undefined` |
| Json.Get | src/index.ts:96 | definition: JavaScript's property read `v.key` on decoded JSON, which throws (`None`) on `null` or `undefined`, gives an object's own property or `undefined`, and gives `undefined` on any other value |
| Normalizer.Field | src/index.ts:97-106 | definition: the value of one property read from an item that is not nullish |
| Normalizer.Encode | src/index.ts:97-106 | definition: the ten payload keys the projection copies, in `snake_case`, each paired with the repository field it fills |
| Normalizer.Project | src/index.ts:96-107 | mapping an item throws exactly when it is nullish; otherwise each of the ten copied fields equals the item's property of that name |
| Normalizer.ProjectAll | src/index.ts:96-107 | `items.map` fails exactly when some item is nullish; otherwise it yields the same count, in the same order, each element the projection of its item |
| Normalizer.Normalize | src/index.ts:95-111 | the payload fails with a `TypeError` exactly when it is nullish or its `items` is not an array, or an item is nullish; on success `total` is `total_count` and `items` is the ordered projection |
| Normalizer.EncodeItems | src/index.ts:96-107 | definition: the payload builder used by `Normalizer.NormalizeRoundTrip`, one raw item per repository carrying its fields plus extra properties |
| Normalizer.ProjectEncoded | src/index.ts:96-107 | projecting an item that carries a repository's fields, among any others, gives back that repository |
| Normalizer.NormalizeRoundTrip | src/index.ts:95-111 | a payload `{ total_count, items }` built from repositories normalises to those repositories, in order, with `total` equal to `total_count` |
| Normalizer.Resolve | src/index.ts:90-114 | the value is an `Error` exactly when fetch rejected, the body was not JSON, or normalisation failed, with that cause; otherwise it is the normalised result |
| Normalizer.StatusIgnored | src/index.ts:90-93 | the response status does not affect the emitted value |
| Normalizer.MissingItemsIsError | src/index.ts:95-113 | a body without `items`, such as an API error message, becomes an `Error` value |
| Stages.Settled | src/index.ts:82 | definition: the events `debounceTime(400)` has emitted while the last event's timer is still running, meaning each earlier event followed by 400 ms of quiet |
| Stages.Debounced | src/index.ts:82 | definition: everything `debounceTime(400)` emits once input stops, the settled events and then the last one |
| Stages.Distinct | src/index.ts:83 | definition: `distinctUntilChanged()` drops an event that is the same object as the last one it let through |
| Stages.PassesFilter | src/index.ts:84-86 | definition: the filter's predicate `e.type !== 'focus'` |
| Stages.NonFocus | src/index.ts:84-86 | definition: the filter applied along a sequence, keeping order |
| Stages.Dispatched | src/index.ts:81-87 | definition: the events reaching `switchMap`, meaning debounce, then dedup, then the filter |
| Stages.Requests | src/index.ts:87-91 | definition: the URL fetched for each event reaching `switchMap`, in order |
| Stages.RequestsAt | src/index.ts:87-91 | one request per event reaching switchMap, in order, each for that event's text |
| Stages.SettledStep | src/index.ts:82 | proof helper: `Settled`'s definition in append form, where a new event releases the pending one exactly when it comes 400 ms or more later |
| Stages.SettledFromPrefix | src/index.ts:82 | every event debounce has released while a timer runs is one of the events before the newest |
| Stages.NewestNotSettled | src/index.ts:82 | when events are distinct objects, the newest one is never released before its own timer runs out |
| Stages.DebouncedIff | src/index.ts:82 | an event passes debounce if and only if it is the last one or the next event comes at least 400 ms after it |
| Stages.SettledIff | src/index.ts:82 | while the last event's timer is pending, an event has passed if and only if it is not the last one and the next came at least 400 ms later |
| Stages.BurstKeepsLast | src/index.ts:82 | from a burst of events each less than 400 ms apart, only the last one passes debounce |
| Stages.SettledOfBurst | src/index.ts:82 | a burst of close events releases nothing before its timer runs out |
| Stages.SettledUnique | src/index.ts:82 | debounce never emits the same event twice while a timer is pending |
| Stages.DebouncedUnique | src/index.ts:82 | debounce never emits the same event twice |
| Stages.DistinctKeepsAll | src/index.ts:83 | when no two neighbours are the same event, `distinctUntilChanged()` keeps them all |
| Stages.DistinctNoopAfterDebounce | src/index.ts:82-83 | identity dedup after debounce lets every debounced event through |
| Stages.DistinctStep | src/index.ts:83 | proof helper: `Distinct`'s definition in append form, where dedup keeps a new event exactly when it is not the same object as the last one kept |
| Stages.NonFocusStep | src/index.ts:84-86 | proof helper: `NonFocus`'s definition in append form, where the filter appends a new event exactly when it is not a focus event |
| Stages.RequestsStep | src/index.ts:87-91 | proof helper: `Requests`'s definition in append form, where a new event reaching switchMap adds one request for its text |
| Stages.NonFocusIff | src/index.ts:84-86 | an event passes the filter if and only if it arrived and is an input or blur event; focus never does |
| Stages.DispatchedIff | src/index.ts:81-87 | an event reaches switchMap if and only if it is not a focus event and is the last event or is followed by 400 ms of quiet |
| Stages.TypingBurstScenario | src/index.ts:81-91 | typing `abc` at 0 ms and `abcd` at 100 ms issues exactly one request, for `abcd` |
| Stream.SearchStream.constructor | src/index.ts:117 | subscribing starts with nothing pending, requested, rendered or logged |
| Stream.SearchStream.Dispatch | src/index.ts:87-91 | switchMap starts a new request for the event's text, which supersedes every earlier one |
| Stream.SearchStream.Filter | src/index.ts:84-86 | a focus event stops at the filter; an input or blur event goes on to switchMap |
| Stream.SearchStream.Emit | src/index.ts:83-87 | dedup lets an event through unless it is the same event as the last one it let through, and remembers it |
| Stream.SearchStream.Fire | src/index.ts:82 | when the timer runs out, the pending event is emitted; it starts a request exactly when dedup and the filter let it through |
| Stream.SearchStream.Tick | src/index.ts:82 | time passing fires the pending event only once it has been quiet for 400 ms; otherwise nothing changes but the clock |
| Stream.SearchStream.OnEvent | src/index.ts:81-82 | a new event first lets an expired timer fire, then becomes the pending event; debounce's state keeps matching its specification |
| Stream.SearchStream.Sink | src/index.ts:117-123 | an `Error` is logged and nothing is rendered; a result is rendered once and nothing is logged |
| Stream.SearchStream.Settle | src/index.ts:87-123 | only the latest, still unsettled request's value reaches the subscriber, exactly once; a superseded request's value changes nothing |
| Stream.RequestsFollowStages | src/index.ts:81-91 | for the object's invariant, the URLs handed to fetch are exactly those of the events the stage specifications dispatch: `Requests(Dispatched(received))` once input is quiet, and those released so far while a timer runs |
| Stream.SupersededIsDiscarded | src/index.ts:87 | after a newer request starts, the older request's result or `Error` changes neither the rendering nor the log |
| Stream.BlurScenario | src/index.ts:81-91 | a focus followed within 400 ms by a blur issues exactly one request, for the field's text |
| Stream.FailureThenRecovery | src/index.ts:87-123 | a failed request is logged without rendering, and the next event still starts a request: the stream does not terminate |

## Left out

- The DOM is not modelled: element lookup, `fromEvent`, and writing `innerHTML` in `render`. `renders` records each `render` argument instead.
- HTML escaping of the rendered fields is not modelled.
- `render` can throw on values that `Normalize` lets through, for example in the cases below. The model records the `render` call and stops there.
  - `total` is `undefined` or `null`, from a missing or null `total_count`; `res.total.toString()` throws.
  - An item's `owner` is `null` or `undefined`; `item.owner.url` throws. The model keeps `owner` opaque, so it cannot tell this case apart.
  - A JSON object whose own `toString` property is not a function, such as `{"toString": 1}`, is used as `total_count` or as any field placed in the HTML template (`${item.name}`, `${item.owner.url}`); converting it to a string throws a `TypeError`. The same happens for an array holding such an object. The model has no string conversion of JSON values.
- What a throwing `render` does to the subscription is not modelled. It depends on the RxJS version, which the source does not pin: RxJS 6 unsubscribes, while RxJS 7 reports the error and keeps the subscription.
- `fetch`, the network and `res.json()` are not modelled. Their outcomes are the parameter of `Resolve`: rejected, a body that did not parse, or a parsed body.
- Timers are not modelled. Time is the `time` of each event and the argument of `Tick`.
- The text of the `console.error` output is not modelled; `logs` records the failure's cause.
- JavaScript numbers are modelled as `int`; floating point is out of scope.
- An item's `owner` is kept as an opaque JSON value.
- The type assertions in the source (`as HTMLInputElement`, `RepositoryItemType`) check nothing at run time, so the model does not model them.
- Events on other elements are not modelled, and neither are changes to the field that fire no event.
- The model takes `e.target.value` as the text the field held when the event fired. Any later edit fires a newer event, which resets the timer.
- Concurrency between requests is modelled only through the order of `Settle` calls. Each is identified by its request number.
- A request is abandoned when it is superseded, not cancelled; `SearchStream.Settle` just discards its late value.
