/**
 * Building the search request from the text field's value: the first
 * statements of the switchMap projection in src/index.ts.
 */
module Query {
  import opened Wrappers

  const BaseUrl: string := "https://api.github.com/search/repositories"
  const QueryPrefix: string := "?q="
  const QuerySuffix: string := "+language:javascript&sort=stars"

  /** The index of the first occurrence of `c` in `s`, if there is one. */
  function IndexOf(s: string, c: char): (r: Option<nat>)
    ensures r.None? <==> c !in s
    ensures r.Some? ==> r.value < |s| && s[r.value] == c && c !in s[..r.value]
  {
    if s == [] then None
    else if s[0] == c then Some(0)
    else
      match IndexOf(s[1..], c)
      case None => None
      case Some(i) =>
        assert s[1..][..i] == s[1..i + 1];
        Some(i + 1)
  }

  /**
   * `s.replace(target, replacement)` with a one-character string pattern:
   * JavaScript replaces the first occurrence only.
   */
  function ReplaceFirst(s: string, target: char, replacement: char): (r: string)
    ensures |r| == |s|
  {
    if s == [] then []
    else if s[0] == target then [replacement] + s[1..]
    else [s[0]] + ReplaceFirst(s[1..], target, replacement)
  }

  /** The search term: the field's value with its first space turned into `+`. */
  function SearchTermOf(value: string): string {
    ReplaceFirst(value, ' ', '+')
  }

  /** The query string `?q=<term>+language:javascript&sort=stars`, with no percent-encoding. */
  function QueryString(value: string): string {
    QueryPrefix + SearchTermOf(value) + QuerySuffix
  }

  /** The URL handed to fetch. */
  function RequestUrl(value: string): string {
    BaseUrl + QueryString(value)
  }

  /**
   * Reads the search term back out of a request URL: the inverse of
   * RequestUrl on the term.
   */
  function SearchTerm(url: string): (t: Option<string>)
    ensures t.Some? ==> url == BaseUrl + QueryPrefix + t.value + QuerySuffix
  {
    var head := |BaseUrl| + |QueryPrefix|;
    if |url| >= head + |QuerySuffix|
       && url[..head] == BaseUrl + QueryPrefix
       && url[|url| - |QuerySuffix|..] == QuerySuffix
    then
      var t := url[head..|url| - |QuerySuffix|];
      assert url == url[..head] + t + url[|url| - |QuerySuffix|..];
      Some(t)
    else None
  }

  /** Without the target, ReplaceFirst changes nothing. */
  lemma {:induction false} ReplaceFirstAbsent(s: string, target: char, replacement: char)
    requires target !in s
    ensures ReplaceFirst(s, target, replacement) == s
  {
    if s != [] {
      assert s[1..] == s[..][1..];
      ReplaceFirstAbsent(s[1..], target, replacement);
    }
  }

  /** When the first target is at `i`, ReplaceFirst changes that character only. */
  lemma {:induction false} ReplaceFirstAt(s: string, target: char, replacement: char, i: nat)
    requires i < |s| && s[i] == target && target !in s[..i]
    ensures ReplaceFirst(s, target, replacement) == s[..i] + [replacement] + s[i + 1..]
  {
    if i > 0 {
      var tail := s[1..];
      assert s[0] == s[..i][0];
      assert tail[..i - 1] == s[1..i];
      ReplaceFirstAt(tail, target, replacement, i - 1);
      calc {
        ReplaceFirst(s, target, replacement);
        [s[0]] + ReplaceFirst(tail, target, replacement);
        [s[0]] + (tail[..i - 1] + [replacement] + tail[i..]);
        { assert [s[0]] + tail[..i - 1] == s[..i];
          assert tail[i..] == s[i + 1..]; }
        s[..i] + [replacement] + s[i + 1..];
      }
    }
  }

  /**
   * ReplaceFirst leaves a string without the target unchanged, and otherwise
   * changes exactly the character at the target's first index.
   */
  lemma ReplaceFirstSplices(s: string, target: char, replacement: char)
    ensures match IndexOf(s, target)
            case None => ReplaceFirst(s, target, replacement) == s
            case Some(i) => ReplaceFirst(s, target, replacement) == s[..i] + [replacement] + s[i + 1..]
  {
    match IndexOf(s, target)
    case None => ReplaceFirstAbsent(s, target, replacement);
    case Some(i) => ReplaceFirstAt(s, target, replacement, i);
  }

  /**
   * Only the first space of the value becomes `+`: every other position,
   * later spaces included, keeps its character, and a value without a space
   * is its own search term.
   */
  lemma OnlyFirstSpaceReplaced(value: string)
    ensures |SearchTermOf(value)| == |value|
    ensures ' ' !in value ==> SearchTermOf(value) == value
    ensures ' ' in value ==>
              var i := IndexOf(value, ' ').value;
              SearchTermOf(value)[i] == '+' &&
              forall j :: 0 <= j < |value| && j != i ==> SearchTermOf(value)[j] == value[j]
  {
    ReplaceFirstSplices(value, ' ', '+');
  }

  /**
   * The request URL is the base URL, `?q=`, the search term and the fixed
   * language and sort clause, and the term can be read back from it.
   */
  lemma {:induction false} SearchTermOfRequest(value: string)
    ensures RequestUrl(value) == BaseUrl + QueryPrefix + SearchTermOf(value) + QuerySuffix
    ensures SearchTerm(RequestUrl(value)) == Some(SearchTermOf(value))
  {
    var url := RequestUrl(value);
    var head := |BaseUrl| + |QueryPrefix|;
    var t := SearchTermOf(value);
    assert url == (BaseUrl + QueryPrefix) + t + QuerySuffix;
    assert url[..head] == BaseUrl + QueryPrefix;
    assert url[|url| - |QuerySuffix|..] == QuerySuffix;
    assert url[head..|url| - |QuerySuffix|] == t;
  }

  /**
   * The term is not percent-encoded: a value whose only space is at `i`
   * requests the same URL as the value with a `+` typed there instead.
   */
  lemma {:induction false} SpaceAndPlusCollide(value: string, i: nat)
    requires IndexOf(value, ' ') == Some(i)
    requires ' ' !in value[i + 1..]
    ensures RequestUrl(value) == RequestUrl(value[i := '+'])
  {
    var typed := value[i := '+'];
    ReplaceFirstAt(value, ' ', '+', i);
    assert typed == value[..i] + ['+'] + value[i + 1..];
    ReplaceFirstAbsent(typed, ' ', '+');
  }

  /** Different search terms make different request URLs. */
  lemma RequestUrlSeparates(a: string, b: string)
    requires SearchTermOf(a) != SearchTermOf(b)
    ensures RequestUrl(a) != RequestUrl(b)
  {
    SearchTermOfRequest(a);
    SearchTermOfRequest(b);
  }

  /**
   * With a second space the two differ: typing `+` for the first space
   * moves the replacement on to the second one, which the original keeps.
   */
  lemma {:induction false} SecondSpaceKept(value: string, i: nat, k: nat)
    requires IndexOf(value, ' ') == Some(i)
    requires IndexOf(value[i + 1..], ' ') == Some(k)
    ensures RequestUrl(value) != RequestUrl(value[i := '+'])
  {
    var typed := value[i := '+'];
    var j := i + 1 + k;
    ReplaceFirstAt(value, ' ', '+', i);
    assert SearchTermOf(value) == typed;
    assert typed[j] == ' ' by {
      assert value[i + 1..][k] == value[j];
    }
    assert ' ' !in typed[..j] by {
      assert typed[..j] == value[..i] + ['+'] + value[i + 1..][..k];
    }
    ReplaceFirstAt(typed, ' ', '+', j);
    assert SearchTermOf(typed)[j] == '+';
    RequestUrlSeparates(value, typed);
  }
}
