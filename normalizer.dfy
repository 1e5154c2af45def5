/**
 * The payload normalizer (the `map` after the fetch in src/index.ts) and the
 * fault boundary (`catchError`) that turns any failure into an Error value.
 */
module Normalizer {
  import opened Wrappers
  import opened Json

  /** One repository as the stream delivers it: ten fields copied from the payload item. */
  datatype Repository = Repository(
    forks: JsValue,
    forksCount: JsValue,
    htmlUrl: JsValue,
    id: JsValue,
    name: JsValue,
    openIssuesCount: JsValue,
    owner: JsValue,
    stargazersCount: JsValue,
    watchers: JsValue,
    watchersCount: JsValue)

  /** `{ total, items }`: what render receives. */
  datatype SearchResult = SearchResult(total: JsValue, items: seq<Repository>)

  /** Why a request produced an Error value instead of a result. */
  datatype Cause =
    | FetchRejected   // fetch's promise rejected (network failure)
    | InvalidJson     // res.json() rejected: the body is not JSON
    | TypeError       // the normalizer read a property of null or undefined

  /** The value read for a property that cannot throw. */
  function Field(item: JsValue, key: string): JsValue
    requires !Nullish(item)
  {
    Get(item, key).value
  }

  /** The payload keys the normalizer copies, with the field each lands in. */
  function Encode(r: Repository): map<string, JsValue> {
    map[
      "forks" := r.forks,
      "forks_count" := r.forksCount,
      "html_url" := r.htmlUrl,
      "id" := r.id,
      "name" := r.name,
      "open_issues_count" := r.openIssuesCount,
      "owner" := r.owner,
      "stargazers_count" := r.stargazersCount,
      "watchers" := r.watchers,
      "watchers_count" := r.watchersCount]
  }

  /**
   * The object literal built for one item: each listed field is read from the
   * item; reading from null or undefined throws.
   */
  function Project(item: JsValue): (r: Option<Repository>)
    ensures r.None? <==> Nullish(item)
    ensures r.Some? ==> forall key :: key in Encode(r.value) ==> Encode(r.value)[key] == Field(item, key)
  {
    if Nullish(item) then None
    else
      Some(Repository(
        Field(item, "forks"),
        Field(item, "forks_count"),
        Field(item, "html_url"),
        Field(item, "id"),
        Field(item, "name"),
        Field(item, "open_issues_count"),
        Field(item, "owner"),
        Field(item, "stargazers_count"),
        Field(item, "watchers"),
        Field(item, "watchers_count")))
  }

  /** `items.map(...)`: projects every item in order, failing if any item throws. */
  function ProjectAll(items: seq<JsValue>): (r: Option<seq<Repository>>)
    ensures r.None? <==> exists i :: 0 <= i < |items| && Nullish(items[i])
    ensures r.Some? ==> |r.value| == |items|
    ensures r.Some? ==> forall i :: 0 <= i < |items| ==> Project(items[i]) == Some(r.value[i])
  {
    if items == [] then Some([])
    else
      match Project(items[0])
      case None => None
      case Some(head) =>
        match ProjectAll(items[1..])
        case None =>
          assert forall i :: 0 <= i < |items| - 1 ==> items[1..][i] == items[i + 1];
          None
        case Some(tail) =>
          Some([head] + tail)
  }

  /**
   * The mapping from the decoded body to `{ total: res.total_count, items }`.
   * It throws a TypeError when the body is null, when `items` is not an
   * array (so `.map` is not a function), or when an item is null; a missing
   * `total_count` is not an error.
   */
  function Normalize(payload: JsValue): (r: Result<SearchResult, Cause>)
    ensures r.Failure? ==> r.error == TypeError
    ensures r.Failure? <==>
              Nullish(payload)
              || !Get(payload, "items").value.Arr?
              || exists i :: 0 <= i < |Get(payload, "items").value.elems| &&
                             Nullish(Get(payload, "items").value.elems[i])
    ensures r.Success? ==>
              var items := Get(payload, "items").value.elems;
              && r.value.total == Get(payload, "total_count").value
              && |r.value.items| == |items|
              && forall i :: 0 <= i < |items| ==> Project(items[i]) == Some(r.value.items[i])
  {
    match Get(payload, "items")
    case None => Failure(TypeError)
    case Some(items) =>
      if !items.Arr? then Failure(TypeError)
      else
        match ProjectAll(items.elems)
        case None => Failure(TypeError)
        case Some(mapped) => Success(SearchResult(Get(payload, "total_count").value, mapped))
  }

  /**
   * Projecting an item that carries a repository's fields, whatever other
   * fields it has, gives back that repository: unlisted fields are dropped.
   */
  lemma ProjectEncoded(r: Repository, extra: map<string, JsValue>)
    ensures Project(Obj(extra + Encode(r))) == Some(r)
  {
    var m := extra + Encode(r);
    assert m["forks"] == r.forks && m["forks_count"] == r.forksCount;
    assert m["html_url"] == r.htmlUrl && m["id"] == r.id && m["name"] == r.name;
    assert m["open_issues_count"] == r.openIssuesCount && m["owner"] == r.owner;
    assert m["stargazers_count"] == r.stargazersCount;
    assert m["watchers"] == r.watchers && m["watchers_count"] == r.watchersCount;
  }

  /** The payload items of the round trip below: `rs`'s fields plus the given extra fields. */
  function EncodeItems(rs: seq<Repository>, extras: seq<map<string, JsValue>>): seq<JsValue>
    requires |extras| == |rs|
  {
    seq(|rs|, i requires 0 <= i < |rs| => Obj(extras[i] + Encode(rs[i])))
  }

  /**
   * Round trip: a payload built from a total and a list of repositories,
   * with any extra fields at either level, normalizes to exactly that total
   * and that list, in order.
   */
  lemma NormalizeRoundTrip(total: JsValue, rs: seq<Repository>, extras: seq<map<string, JsValue>>,
                           top: map<string, JsValue>)
    requires |extras| == |rs|
    ensures Normalize(Obj(top + map["total_count" := total, "items" := Arr(EncodeItems(rs, extras))]))
            == Success(SearchResult(total, rs))
  {
    var items := EncodeItems(rs, extras);
    var payload := Obj(top + map["total_count" := total, "items" := Arr(items)]);
    assert Get(payload, "items") == Some(Arr(items));
    assert Get(payload, "total_count") == Some(total);
    forall i | 0 <= i < |items| ensures Project(items[i]) == Some(rs[i]) {
      ProjectEncoded(rs[i], extras[i]);
    }
    var r := Normalize(payload);
    assert r.Success?;
    assert r.value.items == rs;
  }

  /** What fetch settles with: a rejection, or a response whose body may not be JSON. */
  datatype FetchOutcome =
    | Rejected
    | Responded(status: int, body: Option<JsValue>)

  /** A value of the stream: `ResultType | Error`. */
  datatype StreamValue = Found(result: SearchResult) | Error(cause: Cause)

  /**
   * The inner observable of one request, `catchError` included: every
   * failure becomes an Error value, and the HTTP status is never inspected.
   */
  function Resolve(outcome: FetchOutcome): (v: StreamValue)
    ensures v.Error? <==> outcome.Rejected? || outcome.body.None? || Normalize(outcome.body.value).Failure?
    ensures v.Found? ==> outcome.Responded? && outcome.body.Some? && Normalize(outcome.body.value) == Success(v.result)
    ensures v.Error? ==> v.cause == (if outcome.Rejected? then FetchRejected
                                     else if outcome.body.None? then InvalidJson
                                     else TypeError)
  {
    match outcome
    case Rejected => Error(FetchRejected)
    case Responded(_, body) =>
      match body
      case None => Error(InvalidJson)
      case Some(json) =>
        match Normalize(json)
        case Success(res) => Found(res)
        case Failure(e) => Error(e)
  }

  /**
   * The response status plays no part: a 500 whose body has an `items`
   * array is delivered as a result, and a 200 without one as an Error.
   */
  lemma StatusIgnored(s1: int, s2: int, body: Option<JsValue>)
    ensures Resolve(Responded(s1, body)) == Resolve(Responded(s2, body))
  {
  }

  /** A body without `items`, such as an API error message, becomes a TypeError Error value. */
  lemma MissingItemsIsError(status: int, props: map<string, JsValue>)
    requires "items" !in props
    ensures Resolve(Responded(status, Some(Obj(props)))) == Error(TypeError)
  {
    assert Get(Obj(props), "items") == Some(Undefined);
  }
}
