/**
 * The pagination helpers of `useStarWarsPeople`: reading one page of the people
 * endpoint, finding the next page number in the `next` link, and joining the
 * loaded pages into one list.
 */
module StarWarsPeople {
  import opened Wrappers
  import opened Text
  import opened StarWars

  /** One page of the people endpoint. */
  datatype PeoplePage = PeoplePage(count: int, next: Option<string>, previous: Option<string>, results: seq<Person>)

  /**
   * The value `parsePeopleResponse` inspects: the envelope fields, where `results`
   * is `None` when it is not an array.
   */
  datatype Envelope = Envelope(count: int, next: Option<string>, previous: Option<string>, results: Option<seq<Person>>)

  /**
   * The body `httpGet` returns: a JSON text in a string `data` field, the envelope itself,
   * some other non-null value (a number or a string, say), or `null`/`undefined`, where
   * reading `.data` throws a `TypeError` with the message `typeError`.
   */
  datatype RawResponse =
    | Encoded(data: string)
    | Plain(body: Envelope)
    | OtherValue
    | Nullish(typeError: string)

  /**
   * `JSON.parse`: `Err(message)` where it throws, `Ok(None)` for a value that is not
   * an object (such as `null`), `Ok(Some(e))` for an object.
   */
  type JsonDecoder = string -> Result<Option<Envelope>, string>

  const InvalidResponseMessage := "Invalid people API response"
  const LoadFailedMessage := "Failed to load characters."

  function EnvelopeOf(p: PeoplePage): Envelope {
    Envelope(p.count, p.next, p.previous, Some(p.results))
  }

  /** `parsePeopleResponse`: decode a string `data` field, then accept the value only when its `results` is an array. */
  function ParsePeopleResponse(raw: RawResponse, decode: JsonDecoder): (r: Result<PeoplePage, string>)
    ensures raw.Plain? ==> (r.Ok? <==> raw.body.results.Some?)
    ensures raw.Encoded? ==> (r.Ok? <==> decode(raw.data).Ok? && decode(raw.data).value.Some? && decode(raw.data).value.value.results.Some?)
    ensures r.Ok? && raw.Plain? ==> EnvelopeOf(r.value) == raw.body
    ensures r.Ok? && raw.Encoded? ==> decode(raw.data) == Ok(Some(EnvelopeOf(r.value)))
    ensures raw.Encoded? && decode(raw.data).Err? ==> r == Err(decode(raw.data).error)
    ensures raw.Nullish? ==> r == Err(raw.typeError)
    ensures raw.OtherValue? ==> r == Err(InvalidResponseMessage)
    ensures r.Err? && !(raw.Encoded? && decode(raw.data).Err?) && !raw.Nullish? ==> r.error == InvalidResponseMessage
  {
    var parsed := match raw
      case Encoded(data) => decode(data)
      case Plain(body) => Ok(Some(body))
      case OtherValue => Ok(None)
      case Nullish(typeError) => Err(typeError);
    match parsed
    case Err(message) => Err(message)
    case Ok(value) =>
      if value.Some? && value.value.results.Some? then
        var e := value.value;
        Ok(PeoplePage(e.count, e.next, e.previous, e.results.value))
      else Err(InvalidResponseMessage)
  }

  /** A page handed over as it is comes back unchanged. */
  lemma PlainPageRoundTrip(p: PeoplePage, decode: JsonDecoder)
    ensures ParsePeopleResponse(Plain(EnvelopeOf(p)), decode) == Ok(p)
  {
  }

  /** A `data` string that decodes to an envelope reads exactly as that envelope sent directly. */
  lemma EncodedAgreesWithPlain(s: string, e: Envelope, decode: JsonDecoder)
    requires decode(s) == Ok(Some(e))
    ensures ParsePeopleResponse(Encoded(s), decode) == ParsePeopleResponse(Plain(e), decode)
  {
  }

  /** What a page request can throw, as the query function sees it. */
  datatype Thrown = ErrorThrown(message: string) | OtherThrown

  /** The page number requested: `pageParam ?? 1`. */
  function RequestedPage(pageParam: Option<int>): (n: int)
    ensures pageParam.None? ==> n == 1
    ensures pageParam.Some? ==> n == pageParam.value
  {
    pageParam.GetOr(1)
  }

  /**
   * The query function: the response is parsed; an `Error` keeps its message (the
   * parse errors are `Error`s), anything else thrown becomes "Failed to load characters.".
   */
  function PageQuery(fetched: Result<RawResponse, Thrown>, decode: JsonDecoder): (r: Result<PeoplePage, string>)
    ensures fetched.Ok? ==> r == ParsePeopleResponse(fetched.value, decode)
    ensures fetched == Err(OtherThrown) ==> r == Err(LoadFailedMessage)
    ensures fetched.Err? && fetched.error.ErrorThrown? ==> r == Err(fetched.error.message)
  {
    match fetched
    case Ok(raw) => ParsePeopleResponse(raw, decode)
    case Err(ErrorThrown(message)) => Err(message)
    case Err(OtherThrown) => Err(LoadFailedMessage)
  }

  // ---------------------------------------------------------------------------
  // getPageFromNext: the first match of /[?&]page=(\d+)/
  // ---------------------------------------------------------------------------

  /** `[?&]page=\d` matches at `i`. */
  predicate PageParamAt(s: string, i: nat) {
    i + 6 < |s| && (s[i] == '?' || s[i] == '&') && s[i + 1..i + 6] == "page=" && IsDigit(s[i + 6])
  }

  /** The leftmost match at or after `from`. */
  function FindPageParam(s: string, from: nat): (r: Option<nat>)
    ensures r.None? ==> forall j: nat :: from <= j ==> !PageParamAt(s, j)
    ensures r.Some? ==> from <= r.value && PageParamAt(s, r.value)
    ensures r.Some? ==> forall j :: from <= j < r.value ==> !PageParamAt(s, j)
    decreases |s| - from
  {
    if from + 6 >= |s| then None
    else if PageParamAt(s, from) then Some(from)
    else FindPageParam(s, from + 1)
  }

  /** The digits the capture group `(\d+)` takes for a match at `i`. */
  function PageDigits(s: string, i: nat): (d: string)
    requires PageParamAt(s, i)
    ensures IsDigits(d)
  {
    s[i + 6..i + 6 + DigitRunLength(s, i + 6)]
  }

  /** `getPageFromNext(next)`: `undefined` (`None`) for a missing or empty link and for a link without a match. */
  function GetPageFromNext(next: Option<string>): (r: Option<nat>)
    ensures next.None? || next == Some("") ==> r.None?
    ensures r.None? <==> next.None? || forall i: nat :: !PageParamAt(next.value, i)
    ensures r.Some? ==> exists i: nat ::
      && PageParamAt(next.value, i)
      && (forall j :: 0 <= j < i ==> !PageParamAt(next.value, j))
      && r.value == DecimalValue(PageDigits(next.value, i))
  {
    match next
    case None => None
    case Some(s) =>
      if s == "" then None
      else
        match FindPageParam(s, 0)
        case None => None
        case Some(i) => Some(DecimalValue(PageDigits(s, i)))
  }

  /** The cursor the API puts in its links reads back: a base without `?` or `&`, then `?page=<n>`. */
  lemma {:induction false} PageCursorRoundTrip(base: string, n: nat)
    requires '?' !in base && '&' !in base
    ensures GetPageFromNext(Some(base + "?page=" + NatToString(n))) == Some(n)
  {
    var digits := NatToString(n);
    var s := base + "?page=" + digits;
    var i := |base|;
    assert s[i] == '?';
    assert s[i + 1..i + 6] == "page=";
    assert s[i + 6..] == digits;
    assert PageParamAt(s, i);
    forall j | 0 <= j < i ensures !PageParamAt(s, j) {
      assert s[j] == base[j];
    }
    FindPageParamIs(s, i);
    DigitRunToEnd(s, i + 6);
    assert PageDigits(s, i) == digits;
    DecimalOfNatToString(n);
  }

  lemma FindPageParamIs(s: string, i: nat)
    requires PageParamAt(s, i)
    requires forall j :: 0 <= j < i ==> !PageParamAt(s, j)
    ensures FindPageParam(s, 0) == Some(i)
  {
  }

  /** A run of digits that reaches the end of the string is taken whole. */
  lemma {:induction false} DigitRunToEnd(s: string, i: nat)
    requires i <= |s| && AllDigits(s[i..])
    ensures DigitRunLength(s, i) == |s| - i
    decreases |s| - i
  {
    if i < |s| {
      assert IsDigit(s[i..][0]);
      assert s[i + 1..] == s[i..][1..];
      DigitRunToEnd(s, i + 1);
    }
  }

  /** `getNextPageParam`: the next page number, `undefined` on the last page. */
  function NextPageParam(lastPage: PeoplePage): (r: Option<nat>)
    ensures lastPage.next.None? ==> r.None?
  {
    if lastPage.next.Some? && lastPage.next.value != "" then GetPageFromNext(lastPage.next) else None
  }

  /** The guard in `getNextPageParam` changes nothing: it is `getPageFromNext(lastPage.next)`. */
  lemma NextPageParamIsCursor(lastPage: PeoplePage)
    ensures NextPageParam(lastPage) == GetPageFromNext(lastPage.next)
  {
  }

  // ---------------------------------------------------------------------------
  // apiPeople: pages.flatMap((p) => p.results) ?? []
  // ---------------------------------------------------------------------------

  function Flatten(pages: seq<PeoplePage>): (r: seq<Person>)
    ensures pages == [] ==> r == []
  {
    if pages == [] then [] else pages[0].results + Flatten(pages[1..])
  }

  /** The people of all loaded pages, or none before the first page arrives. */
  function ApiPeople(pages: Option<seq<PeoplePage>>): (r: seq<Person>)
    ensures pages.None? ==> r == []
    ensures pages.Some? ==> r == Flatten(pages.value)
  {
    match pages
    case None => []
    case Some(ps) => Flatten(ps)
  }

  function TotalResults(pages: seq<PeoplePage>): nat {
    if pages == [] then 0 else |pages[0].results| + TotalResults(pages[1..])
  }

  /** Loading another page appends its people after those already shown. */
  lemma {:induction false} FlattenAppend(a: seq<PeoplePage>, b: seq<PeoplePage>)
    ensures Flatten(a + b) == Flatten(a) + Flatten(b)
  {
    if a == [] {
      assert a + b == b;
    } else {
      assert (a + b)[1..] == a[1..] + b;
      FlattenAppend(a[1..], b);
    }
  }

  /** The list holds every result of every page, no more. */
  lemma {:induction false} FlattenLength(pages: seq<PeoplePage>)
    ensures |Flatten(pages)| == TotalResults(pages)
  {
    if pages != [] {
      FlattenLength(pages[1..]);
    }
  }

  /** A person is listed exactly when some page holds it. */
  lemma {:induction false} FlattenMembership(pages: seq<PeoplePage>, x: Person)
    ensures x in Flatten(pages) <==> exists k :: 0 <= k < |pages| && x in pages[k].results
  {
    if pages != [] {
      FlattenMembership(pages[1..], x);
      if x in Flatten(pages[1..]) {
        var k :| 0 <= k < |pages[1..]| && x in pages[1..][k].results;
        assert x in pages[k + 1].results;
      }
      if exists k :: 0 <= k < |pages| && x in pages[k].results {
        var k :| 0 <= k < |pages| && x in pages[k].results;
        if k > 0 {
          assert x in pages[1..][k - 1].results;
        }
      }
    }
  }
}
