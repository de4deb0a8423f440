/**
 * The pure rules of the add-person wizard (app/models/AddPersonModal.tsx):
 * the draft form, comma-list tokenising, the numeric and URL checks, the
 * per-step validation, the order in which Save re-validates, and the record
 * Save hands to its callback.
 */
module AddPersonRules {
  import opened Wrappers
  import opened Text
  import opened Sequences
  import opened StarWars

  // ---------------------------------------------------------------------------
  // The draft form
  // ---------------------------------------------------------------------------

  datatype Field =
    | Name | Height | Mass | HairColor | SkinColor | EyeColor | BirthYear | Gender
    | Homeworld | Films | Species | Vehicles | Starships | Url

  /** The draft holds one raw string per field, as typed (`Record<string, string>` over the fields above). */
  datatype Form = Form(
    name: string, height: string, mass: string, hairColor: string, skinColor: string,
    eyeColor: string, birthYear: string, gender: string, homeworld: string,
    films: string, species: string, vehicles: string, starships: string, url: string)

  /** `emptyForm` */
  const EmptyForm: Form := Form("", "", "", "", "", "", "", "", "", "", "", "", "", "")

  /** `form[k]` */
  function At(f: Form, k: Field): string {
    match k
    case Name => f.name
    case Height => f.height
    case Mass => f.mass
    case HairColor => f.hairColor
    case SkinColor => f.skinColor
    case EyeColor => f.eyeColor
    case BirthYear => f.birthYear
    case Gender => f.gender
    case Homeworld => f.homeworld
    case Films => f.films
    case Species => f.species
    case Vehicles => f.vehicles
    case Starships => f.starships
    case Url => f.url
  }

  /** `{ ...form, [k]: v }`: the field `k` now holds `v` and every other field is unchanged. */
  function Put(f: Form, k: Field, v: string): (g: Form)
    ensures At(g, k) == v
    ensures forall j :: j != k ==> At(g, j) == At(f, j)
  {
    match k
    case Name => f.(name := v)
    case Height => f.(height := v)
    case Mass => f.(mass := v)
    case HairColor => f.(hairColor := v)
    case SkinColor => f.(skinColor := v)
    case EyeColor => f.(eyeColor := v)
    case BirthYear => f.(birthYear := v)
    case Gender => f.(gender := v)
    case Homeworld => f.(homeworld := v)
    case Films => f.(films := v)
    case Species => f.(species := v)
    case Vehicles => f.(vehicles := v)
    case Starships => f.(starships := v)
    case Url => f.(url := v)
  }

  const TotalSteps := 4

  const RequiredStep1: seq<Field> := [Name, Height, Mass, BirthYear, Gender]
  const RequiredStep2: seq<Field> := [HairColor, SkinColor, EyeColor, Homeworld]

  const FieldLabels: map<Field, string> := map[
    Name := "Name", Height := "Height", Mass := "Mass", BirthYear := "Birth year",
    Gender := "Gender", HairColor := "Hair color", SkinColor := "Skin color",
    EyeColor := "Eye color", Homeworld := "Homeworld"]

  /** The wizard step on which a field is entered. */
  function OwningStep(k: Field): (s: int)
    ensures 1 <= s <= TotalSteps
    ensures k in RequiredStep1 <==> s == 1
    ensures k in RequiredStep2 <==> s == 2
  {
    match k
    case Name | Height | Mass | BirthYear | Gender => 1
    case HairColor | SkinColor | EyeColor | Homeworld => 2
    case Films | Species | Vehicles | Starships => 3
    case Url => 4
  }

  // ---------------------------------------------------------------------------
  // Comma lists
  // ---------------------------------------------------------------------------

  /** `pieces.map((x) => x.trim())` */
  function TrimAll(pieces: seq<string>): (r: seq<string>)
    ensures |r| == |pieces|
    ensures forall i :: 0 <= i < |r| ==> r[i] == Trim(pieces[i])
  {
    if pieces == [] then [] else [Trim(pieces[0])] + TrimAll(pieces[1..])
  }

  predicate IsNonEmpty(t: string) { t != "" }

  /** Text as the record keeps it: non-empty and without surrounding whitespace. */
  predicate IsTrimmedText(t: string) {
    t != "" && Trim(t) == t
  }

  /** `s.split(",").map((x) => x.trim()).filter(Boolean)` */
  function ParseCommaList(s: string): (r: seq<string>)
    ensures forall t :: t in r ==> IsTrimmedText(t) && ',' !in t
  {
    var pieces := Split(s, ',');
    var r := Filter(TrimAll(pieces), IsNonEmpty);
    forall t | t in r ensures IsTrimmedText(t) && ',' !in t {
      FilterMembership(TrimAll(pieces), IsNonEmpty, t);
      var j :| 0 <= j < |pieces| && TrimAll(pieces)[j] == t;
      TrimIdempotent(pieces[j]);
      TrimKeepsAbsent(pieces[j], ',');
    }
    r
  }

  /** Tokens come out in left-to-right order: the tokens before a comma precede those after it. */
  lemma ParseCommaListAppend(a: string, b: string)
    ensures ParseCommaList(a + "," + b) == ParseCommaList(a) + ParseCommaList(b)
  {
    SplitAppend(a, b, ',');
    var pa, pb := Split(a, ','), Split(b, ',');
    assert a + "," + b == a + [','] + b;
    TrimAllAppend(pa, pb);
    FilterAppend(TrimAll(pa), TrimAll(pb), IsNonEmpty);
  }

  lemma {:induction false} TrimAllAppend(a: seq<string>, b: seq<string>)
    ensures TrimAll(a + b) == TrimAll(a) + TrimAll(b)
  {
    if a == [] {
      assert a + b == b;
    } else {
      assert (a + b)[1..] == a[1..] + b;
      TrimAllAppend(a[1..], b);
    }
  }

  /** A piece without a comma is one token, trimmed, or nothing when it is blank. */
  lemma ParseCommaListSingle(s: string)
    requires ',' !in s
    ensures ParseCommaList(s) == if Trim(s) == "" then [] else [Trim(s)]
  {
    SplitWithout(s, ',');
    assert TrimAll([s]) == [Trim(s)];
    assert Filter([Trim(s)], IsNonEmpty) == if Trim(s) == "" then [] else [Trim(s)];
  }

  /** A field whose `trim()` is empty yields no tokens at all. */
  lemma ParseCommaListBlank(s: string)
    requires Trim(s) == ""
    ensures ParseCommaList(s) == []
  {
    TrimEmptyIffBlank(s);
    assert ',' !in s by {
      forall i | 0 <= i < |s| ensures s[i] != ',' {
        assert IsSpace(s[i]);
      }
    }
    ParseCommaListSingle(s);
  }

  // ---------------------------------------------------------------------------
  // The numeric pattern ^\d+(\.\d+)?$
  // ---------------------------------------------------------------------------

  /** The language of `^\d+(\.\d+)?$`, as the regular expression reads. */
  ghost predicate IsDecimalNumber(s: string) {
    IsDigits(s) || exists k :: 0 < k < |s| && s[k] == '.' && IsDigits(s[..k]) && IsDigits(s[k + 1..])
  }

  /** The same test as one left-to-right scan: a digit run, then optionally a dot and a digit run to the end. */
  predicate MatchesNumber(s: string) {
    var d := DigitRunLength(s, 0);
    d > 0 && (d == |s| || (s[d] == '.' && var e := DigitRunLength(s, d + 1); e > 0 && d + 1 + e == |s|))
  }

  lemma MatchesNumberCorrect(s: string)
    ensures MatchesNumber(s) <==> IsDecimalNumber(s)
  {
    if MatchesNumber(s) { MatchesNumberSound(s); }
    if IsDecimalNumber(s) { MatchesNumberComplete(s); }
  }

  lemma MatchesNumberSound(s: string)
    requires MatchesNumber(s)
    ensures IsDecimalNumber(s)
  {
    var d := DigitRunLength(s, 0);
    assert s[..d] == s[0..d];
    if d < |s| {
      var e := DigitRunLength(s, d + 1);
      assert s[d + 1..] == s[d + 1..d + 1 + e];
    }
  }

  lemma MatchesNumberComplete(s: string)
    requires IsDecimalNumber(s)
    ensures MatchesNumber(s)
  {
    if IsDigits(s) {
      DigitRunExact(s, 0, |s|);
    } else {
      var k :| 0 < k < |s| && s[k] == '.' && IsDigits(s[..k]) && IsDigits(s[k + 1..]);
      assert s[0..k] == s[..k];
      DigitRunExact(s, 0, k);
      assert s[k + 1..|s|] == s[k + 1..];
      DigitRunExact(s, k + 1, |s|);
    }
  }

  /** A digit run that cannot be extended is the maximal one. */
  lemma {:induction false} DigitRunExact(s: string, i: nat, j: nat)
    requires i <= j <= |s| && AllDigits(s[i..j]) && (j == |s| || !IsDigit(s[j]))
    ensures DigitRunLength(s, i) == j - i
    decreases j - i
  {
    if i < j {
      assert s[i] == s[i..j][0];
      assert s[i + 1..j] == s[i..j][1..];
      DigitRunExact(s, i + 1, j);
    }
  }

  // ---------------------------------------------------------------------------
  // URLs
  // ---------------------------------------------------------------------------

  /** The two parts of a parsed URL the checks read: `protocol` (with its colon) and `pathname`. */
  datatype ParsedUrl = ParsedUrl(protocol: string, pathname: string)

  /** `new URL(s)`, which is `None` where the constructor throws. */
  type UrlParser = string -> Option<ParsedUrl>

  predicate IsHttpProtocol(p: string) { p == "http:" || p == "https:" }

  /** `isValidAnyUrl`: an http(s) URL with any path. */
  predicate IsValidAnyUrl(parse: UrlParser, url: string) {
    match parse(url)
    case None => false
    case Some(u) => IsHttpProtocol(u.protocol)
  }

  /** `isValidResourceUrl(url, pathPattern)`: an http(s) URL whose path passes `pathPattern.test`. */
  predicate IsValidResourceUrl(parse: UrlParser, url: string, pathPattern: string -> bool) {
    match parse(url)
    case None => false
    case Some(u) => IsHttpProtocol(u.protocol) && pathPattern(u.pathname)
  }

  // ---------------------------------------------------------------------------
  // validateUrlList
  // ---------------------------------------------------------------------------

  /** The 0-based index of the first token that is not a valid URL for the pattern. */
  function FirstInvalidUrl(urls: seq<string>, parse: UrlParser, pathPattern: string -> bool): Option<nat> {
    FirstIndex(urls, u => !IsValidResourceUrl(parse, u, pathPattern))
  }

  function PositionMessage(fieldLabel: string, position: nat, example: string): string {
    "Invalid " + fieldLabel + " URL at position " + NatToString(position) + ". Use format: " + example
  }

  /** What `validateUrlList` returns: `null`, or the message naming the 1-based position of the first bad token. */
  function UrlListError(urls: seq<string>, parse: UrlParser, pathPattern: string -> bool,
                        example: string, fieldLabel: string): (r: Option<string>)
    ensures r.None? <==> forall j :: 0 <= j < |urls| ==> IsValidResourceUrl(parse, urls[j], pathPattern)
    ensures r.Some? ==> exists i ::
      && 0 <= i < |urls|
      && !IsValidResourceUrl(parse, urls[i], pathPattern)
      && (forall j :: 0 <= j < i ==> IsValidResourceUrl(parse, urls[j], pathPattern))
      && r == Some(PositionMessage(fieldLabel, i + 1, example))
  {
    match FirstInvalidUrl(urls, parse, pathPattern)
    case None => assert forall j :: 0 <= j < |urls| ==> urls[j] in urls; None
    case Some(i) => Some(PositionMessage(fieldLabel, i + 1, example))
  }

  /** `validateUrlList`: the loop with its early return. */
  method ValidateUrlList(urls: seq<string>, parse: UrlParser, pathPattern: string -> bool,
                         example: string, fieldLabel: string) returns (err: Option<string>)
    ensures err == UrlListError(urls, parse, pathPattern, example, fieldLabel)
  {
    for i := 0 to |urls|
      invariant forall j :: 0 <= j < i ==> IsValidResourceUrl(parse, urls[j], pathPattern)
    {
      if !IsValidResourceUrl(parse, urls[i], pathPattern) {
        FirstIndexIs(urls, u => !IsValidResourceUrl(parse, u, pathPattern), i);
        return Some(PositionMessage(fieldLabel, i + 1, example));
      }
    }
    return None;
  }

  // ---------------------------------------------------------------------------
  // The four resource kinds (the `SWAPI` table) and their path patterns
  // ---------------------------------------------------------------------------

  datatype ResourceKind = FilmKind | SpeciesKind | VehicleKind | StarshipKind

  /** The path segment of the kind's pattern `/\/<segment>\/\d+\/?$/i`. */
  function Segment(kind: ResourceKind): string {
    match kind
    case FilmKind => "films"
    case SpeciesKind => "species"
    case VehicleKind => "vehicles"
    case StarshipKind => "starships"
  }

  /** The label the error message uses. */
  function Noun(kind: ResourceKind): string {
    match kind
    case FilmKind => "film"
    case SpeciesKind => "species"
    case VehicleKind => "vehicle"
    case StarshipKind => "starship"
  }

  function Example(kind: ResourceKind): string {
    match kind
    case FilmKind => "https://swapi.dev/api/films/1/"
    case SpeciesKind => "https://swapi.dev/api/species/1/"
    case VehicleKind => "https://swapi.dev/api/vehicles/1/"
    case StarshipKind => "https://swapi.dev/api/starships/1/"
  }

  /** The form field holding the kind's comma list. */
  function ListField(kind: ResourceKind): (k: Field)
    ensures OwningStep(k) == 3
  {
    match kind
    case FilmKind => Films
    case SpeciesKind => Species
    case VehicleKind => Vehicles
    case StarshipKind => Starships
  }

  /** `SWAPI[kind].pattern.test` */
  function PathPattern(kind: ResourceKind): string -> bool {
    path => MatchesResourcePath(path, Segment(kind))
  }

  /**
   * `\/<seg>\/\d+\/?$` matches `path` from position `i` on: a slash, the segment in any
   * letter case, a slash, digits, an optional slash, and then the end of the path.
   */
  ghost predicate ResourcePathAt(path: string, seg: string, i: int) {
    0 <= i && i + |seg| + 3 <= |path|
    && path[i] == '/' && Lower(path[i + 1..i + 1 + |seg|]) == seg && path[i + 1 + |seg|] == '/'
    && var rest := path[i + 2 + |seg|..];
       IsDigits(rest) || (rest[|rest| - 1] == '/' && IsDigits(rest[..|rest| - 1]))
  }

  /** `pattern.test(path)`: the unanchored pattern matches somewhere. */
  ghost predicate ResourcePathSpec(path: string, seg: string) {
    exists i :: ResourcePathAt(path, seg, i)
  }

  /** Number of decimal digits at the end of `s`. */
  function TrailingDigits(s: string): (n: nat)
    ensures n <= |s| && AllDigits(s[|s| - n..])
    ensures n == |s| || !IsDigit(s[|s| - n - 1])
  {
    if s != [] && IsDigit(s[|s| - 1]) then
      var m := TrailingDigits(s[..|s| - 1]);
      DigitsExtend(s, m);
      m + 1
    else 0
  }

  lemma DigitsExtend(s: string, m: nat)
    requires s != [] && m <= |s| - 1 && IsDigit(s[|s| - 1])
    requires AllDigits(s[..|s| - 1][|s| - 1 - m..])
    requires m == |s| - 1 || !IsDigit(s[..|s| - 1][|s| - 1 - m - 1])
    ensures AllDigits(s[|s| - (m + 1)..])
    ensures m + 1 == |s| || !IsDigit(s[|s| - (m + 1) - 1])
  {
    var lead := s[..|s| - 1];
    forall i | |s| - 1 - m <= i < |s| - 1 ensures IsDigit(s[i]) {
      assert s[i] == lead[|s| - 1 - m..][i - (|s| - 1 - m)];
    }
    if m + 1 < |s| {
      assert s[|s| - (m + 1) - 1] == lead[|s| - 1 - m - 1];
    }
  }

  /** Where the path ends once an optional final slash is set aside. */
  function PathEnd(path: string): nat {
    if path != [] && path[|path| - 1] == '/' then |path| - 1 else |path|
  }

  /** The pattern test written as a scan from the end: optional slash, digits, `/<seg>/`. */
  predicate MatchesResourcePath(path: string, seg: string) {
    var end := PathEnd(path);
    var start := end - TrailingDigits(path[..end]);
    start < end && start >= |seg| + 2
    && path[start - 1] == '/' && Lower(path[start - 1 - |seg|..start - 1]) == seg
    && path[start - 2 - |seg|] == '/'
  }

  lemma MatchesResourcePathCorrect(path: string, seg: string)
    ensures MatchesResourcePath(path, seg) <==> ResourcePathSpec(path, seg)
  {
    if MatchesResourcePath(path, seg) { MatchesResourcePathSound(path, seg); }
    if ResourcePathSpec(path, seg) {
      var i :| ResourcePathAt(path, seg, i);
      MatchesResourcePathComplete(path, seg, i);
    }
  }

  lemma MatchesResourcePathSound(path: string, seg: string)
    requires MatchesResourcePath(path, seg)
    ensures ResourcePathAt(path, seg, PathEnd(path) - TrailingDigits(path[..PathEnd(path)]) - 2 - |seg|)
  {
    var end := PathEnd(path);
    var n := TrailingDigits(path[..end]);
    var start := end - n;
    assert path[start..end] == path[..end][end - n..];
    var rest := path[start..];
    if end < |path| {
      assert rest[..|rest| - 1] == path[start..end];
    } else {
      assert rest == path[start..end];
    }
  }

  lemma MatchesResourcePathComplete(path: string, seg: string, i: int)
    requires ResourcePathAt(path, seg, i)
    ensures MatchesResourcePath(path, seg)
  {
    var b := i + 2 + |seg|;
    var rest := path[b..];
    var end := PathEnd(path);
    assert path[|path| - 1] == rest[|rest| - 1];
    var digits := path[b..end];
    assert IsDigits(digits) by {
      if IsDigits(rest) {
        assert digits == rest;
      } else {
        assert digits == rest[..|rest| - 1];
      }
    }
    forall j | b <= j < end ensures IsDigit(path[..end][j]) {
      assert path[..end][j] == digits[j - b];
    }
    TrailingDigitsExact(path[..end], b);
  }

  /** The trailing digit run of `s` starts at `b` when `s[b..]` is all digits and `s[b-1]` is not one. */
  lemma TrailingDigitsExact(s: string, b: nat)
    requires 0 < b <= |s| && !IsDigit(s[b - 1]) && forall j :: b <= j < |s| ==> IsDigit(s[j])
    ensures TrailingDigits(s) == |s| - b
  {
    var n := TrailingDigits(s);
    forall j | |s| - n <= j < |s| ensures IsDigit(s[j]) {
      assert s[j] == s[|s| - n..][j - (|s| - n)];
    }
  }

  // ---------------------------------------------------------------------------
  // validateStep
  // ---------------------------------------------------------------------------

  const HeightNumberMessage := "Height must be a number (e.g. 172 or 172.5)."
  const MassNumberMessage := "Mass must be a number (e.g. 77 or 77.5)."
  const HomeworldMessage := "Invalid Homeworld URL. Enter a valid link (e.g. https://swapi.dev/api/planets/1/)."

  function RequiredMessage(k: Field): string
    requires k in FieldLabels
  {
    FieldLabels[k] + " is required."
  }

  /** None of the fields `keys` is blank. */
  predicate Filled(f: Form, keys: seq<Field>) {
    forall k :: k in keys ==> !IsBlankField(f, k)
  }

  /** `!form[k].trim()` */
  predicate IsBlankField(f: Form, k: Field) {
    Trim(At(f, k)) == ""
  }

  /** `keys.find((k) => !form[k].trim())` */
  function FirstBlank(f: Form, keys: seq<Field>): (r: Option<Field>)
    ensures r.None? <==> Filled(f, keys)
    ensures r.Some? ==> r.value in keys && IsBlankField(f, r.value)
  {
    match FirstIndex(keys, k => IsBlankField(f, k))
    case None => None
    case Some(i) => Some(keys[i])
  }

  /** The key at `i` is blank and none before it is: it is the one `find` returns. */
  lemma FirstBlankIs(f: Form, keys: seq<Field>, i: nat)
    requires i < |keys| && IsBlankField(f, keys[i])
    requires forall j :: 0 <= j < i ==> !IsBlankField(f, keys[j])
    ensures FirstBlank(f, keys) == Some(keys[i])
  {
    FirstIndexIs(keys, k => IsBlankField(f, k), i);
  }

  /** The two number checks of step 1, made once every step-1 field is filled in. */
  function NumberError(f: Form): Option<string> {
    if Trim(f.height) != "" && !MatchesNumber(Trim(f.height)) then Some(HeightNumberMessage)
    else if Trim(f.mass) != "" && !MatchesNumber(Trim(f.mass)) then Some(MassNumberMessage)
    else None
  }

  /** What `validateStep(s)` returns for the form `f`. */
  function StepError(f: Form, s: int): Option<string> {
    if s == 1 then
      match FirstBlank(f, RequiredStep1)
      case Some(k) => Some(RequiredMessage(k))
      case None => NumberError(f)
    else if s == 2 then
      match FirstBlank(f, RequiredStep2)
      case Some(k) => Some(RequiredMessage(k))
      case None => None
    else None
  }

  // ---------------------------------------------------------------------------
  // What the checks at Next and Save report
  // ---------------------------------------------------------------------------

  /** An error the wizard shows: the message and the field it is attached to. */
  datatype Problem = Problem(message: string, field: Option<Field>)

  /** The field `handleNext` and `handleSave` attach a step-1 message to, found by reading the message. */
  function Step1ErrorField(f: Form, err: string): Option<Field> {
    if Contains(err, "Height must be a number") then Some(Height)
    else if Contains(err, "Mass must be a number") then Some(Mass)
    else FirstBlank(f, RequiredStep1)
  }

  /** The homeworld check, made only when the homeworld is not blank. */
  function HomeworldProblem(f: Form, parse: UrlParser): Option<Problem> {
    var h := Trim(f.homeworld);
    if h != "" && !IsValidAnyUrl(parse, h) then Some(Problem(HomeworldMessage, Some(Homeworld))) else None
  }

  /** The check of one comma list, made only when the field is not blank. */
  function LinkProblem(f: Form, parse: UrlParser, kind: ResourceKind): Option<Problem> {
    var raw := At(f, ListField(kind));
    if Trim(raw) != "" then
      match UrlListError(ParseCommaList(raw), parse, PathPattern(kind), Example(kind), Noun(kind))
      case Some(e) => Some(Problem(e, Some(ListField(kind))))
      case None => None
    else None
  }

  /** The step-3 checks in their fixed order: films, species, vehicles, starships. */
  function LinksProblem(f: Form, parse: UrlParser): Option<Problem> {
    LinkProblem(f, parse, FilmKind)
      .OrElse(LinkProblem(f, parse, SpeciesKind))
      .OrElse(LinkProblem(f, parse, VehicleKind))
      .OrElse(LinkProblem(f, parse, StarshipKind))
  }

  /** What `handleNext` reports on step `s`; `None` means it advances. */
  function NextProblem(f: Form, s: int, parse: UrlParser): Option<Problem> {
    match StepError(f, s)
    case Some(err) =>
      Some(Problem(err, if s == 1 then Step1ErrorField(f, err)
                        else if s == 2 then FirstBlank(f, RequiredStep2)
                        else None))
    case None =>
      if s == 2 then HomeworldProblem(f, parse)
      else if s == 3 then LinksProblem(f, parse)
      else None
  }

  /** A failed Save: what it reports and the step it moves to (`None`: the step stays). */
  datatype Rejection = Rejection(problem: Problem, jumpTo: Option<int>)

  /** What `handleSave` reports before it calls `onSave`; `None` means the form is submitted. */
  function SaveRejection(f: Form, parse: UrlParser): Option<Rejection> {
    match StepError(f, 1).OrElse(StepError(f, 2))
    case Some(err) =>
      var key1 := Step1ErrorField(f, err);
      var key2 := FirstBlank(f, RequiredStep2);
      Some(Rejection(Problem(err, key1.OrElse(key2)),
                     if key1.Some? then Some(1) else if key2.Some? then Some(2) else None))
    case None =>
      match HomeworldProblem(f, parse)
      case Some(p) => Some(Rejection(p, Some(2)))
      case None =>
        match LinksProblem(f, parse)
        case Some(p) => Some(Rejection(p, Some(3)))
        case None => None
  }

  // ---------------------------------------------------------------------------
  // What each step accepts, stated independently of the checks
  // ---------------------------------------------------------------------------

  /** A resource URL as the pattern reads it: http(s), and the path matches `/\/<seg>\/\d+\/?$/i`. */
  ghost predicate ResourceUrlSpec(parse: UrlParser, url: string, kind: ResourceKind) {
    match parse(url)
    case None => false
    case Some(u) => IsHttpProtocol(u.protocol) && ResourcePathSpec(u.pathname, Segment(kind))
  }

  /** Every token of the kind's comma list is a URL of that kind. */
  ghost predicate ListHolds(f: Form, parse: UrlParser, kind: ResourceKind) {
    forall u :: u in ParseCommaList(At(f, ListField(kind))) ==> ResourceUrlSpec(parse, u, kind)
  }

  /**
   * Step 1: every field is filled in, and height and mass match `^\d+(\.\d+)?$`
   * (`MatchesNumberCorrect` relates the scan to the pattern's reading).
   */
  predicate Step1Holds(f: Form) {
    Filled(f, RequiredStep1) && MatchesNumber(Trim(f.height)) && MatchesNumber(Trim(f.mass))
  }

  /** Step 2: every field is filled in and the homeworld is an http(s) link. */
  ghost predicate Step2Holds(f: Form, parse: UrlParser) {
    Filled(f, RequiredStep2) && IsValidAnyUrl(parse, Trim(f.homeworld))
  }

  /** Step 3: the four lists hold only resource URLs of their kind (a blank list holds none). */
  ghost predicate Step3Holds(f: Form, parse: UrlParser) {
    ListHolds(f, parse, FilmKind) && ListHolds(f, parse, SpeciesKind)
    && ListHolds(f, parse, VehicleKind) && ListHolds(f, parse, StarshipKind)
  }

  ghost predicate StepHolds(f: Form, s: int, parse: UrlParser) {
    if s == 1 then Step1Holds(f)
    else if s == 2 then Step2Holds(f, parse)
    else if s == 3 then Step3Holds(f, parse)
    else true
  }

  /** The field `k` itself fails one of the checks above. */
  ghost predicate FailsOwnCheck(f: Form, k: Field, parse: UrlParser) {
    FailsRequired(f, k) || FailsNumber(f, k) || FailsHomeworld(f, k, parse) || FailsList(f, k, parse)
  }

  /** `k` is a required field left blank. */
  predicate FailsRequired(f: Form, k: Field) {
    (k in RequiredStep1 || k in RequiredStep2) && Trim(At(f, k)) == ""
  }

  /** `k` is the height or the mass and does not read as a number. */
  predicate FailsNumber(f: Form, k: Field) {
    (k == Height && !MatchesNumber(Trim(f.height))) || (k == Mass && !MatchesNumber(Trim(f.mass)))
  }

  /** `k` is the homeworld and it is not an http(s) URL. */
  predicate FailsHomeworld(f: Form, k: Field, parse: UrlParser) {
    k == Homeworld && !IsValidAnyUrl(parse, Trim(f.homeworld))
  }

  /** `k` is one of the four lists and holds a token that is not a URL of its kind. */
  ghost predicate FailsList(f: Form, k: Field, parse: UrlParser) {
    exists kind :: k == ListField(kind) && !ListHolds(f, parse, kind)
  }

  // ---------------------------------------------------------------------------
  // The checks agree with what the steps accept
  // ---------------------------------------------------------------------------

  /** The URL test with the kind's pattern is the regular-expression reading of it. */
  lemma ResourceUrlCorrect(parse: UrlParser, url: string, kind: ResourceKind)
    ensures IsValidResourceUrl(parse, url, PathPattern(kind)) <==> ResourceUrlSpec(parse, url, kind)
  {
    match parse(url)
    case None =>
    case Some(u) => MatchesResourcePathCorrect(u.pathname, Segment(kind));
  }

  /** `validateUrlList` with the kind's pattern accepts exactly the lists of URLs of that kind. */
  lemma UrlListCorrect(urls: seq<string>, parse: UrlParser, kind: ResourceKind)
    ensures UrlListError(urls, parse, PathPattern(kind), Example(kind), Noun(kind)).None?
        <==> forall u :: u in urls ==> ResourceUrlSpec(parse, u, kind)
  {
    forall u | u in urls
      ensures IsValidResourceUrl(parse, u, PathPattern(kind)) <==> ResourceUrlSpec(parse, u, kind)
    {
      ResourceUrlCorrect(parse, u, kind);
    }
  }

  /** One list check passes exactly when every token is a URL of the kind; otherwise it blames that list. */
  lemma LinkProblemCorrect(f: Form, parse: UrlParser, kind: ResourceKind)
    ensures LinkProblem(f, parse, kind).None? <==> ListHolds(f, parse, kind)
    ensures LinkProblem(f, parse, kind).Some? ==> LinkProblem(f, parse, kind).value.field == Some(ListField(kind))
  {
    var raw := At(f, ListField(kind));
    UrlListCorrect(ParseCommaList(raw), parse, kind);
    if Trim(raw) == "" {
      ParseCommaListBlank(raw);
    }
  }

  /** The step-3 checks pass exactly when all four lists hold; otherwise they blame a failing list. */
  lemma LinksProblemCorrect(f: Form, parse: UrlParser)
    ensures LinksProblem(f, parse).None? <==> Step3Holds(f, parse)
    ensures LinksProblem(f, parse).Some? ==>
      var k := LinksProblem(f, parse).value.field;
      k.Some? && OwningStep(k.value) == 3 && FailsOwnCheck(f, k.value, parse)
  {
    LinkProblemCorrect(f, parse, FilmKind);
    LinkProblemCorrect(f, parse, SpeciesKind);
    LinkProblemCorrect(f, parse, VehicleKind);
    LinkProblemCorrect(f, parse, StarshipKind);
  }

  /** With height and mass filled in, the number checks pass exactly when both read as decimal numbers. */
  lemma NumberErrorCorrect(f: Form)
    requires Trim(f.height) != "" && Trim(f.mass) != ""
    ensures NumberError(f).None? <==> MatchesNumber(Trim(f.height)) && MatchesNumber(Trim(f.mass))
    ensures !MatchesNumber(Trim(f.height)) ==> NumberError(f) == Some(HeightNumberMessage)
    ensures MatchesNumber(Trim(f.height)) && !MatchesNumber(Trim(f.mass)) ==> NumberError(f) == Some(MassNumberMessage)
  {
  }

  /** Once step 1 is filled in, height and mass are not blank. */
  lemma FilledMeasures(f: Form)
    requires Filled(f, RequiredStep1)
    ensures Trim(f.height) != "" && Trim(f.mass) != ""
  {
    assert Height in RequiredStep1 && Mass in RequiredStep1;
    assert !IsBlankField(f, Height) && !IsBlankField(f, Mass);
    assert At(f, Height) == f.height && At(f, Mass) == f.mass;
  }

  /** `validateStep(1)` returns `null` exactly when step 1 holds. */
  lemma Step1ErrorCorrect(f: Form)
    ensures StepError(f, 1).None? <==> Step1Holds(f)
  {
    if Filled(f, RequiredStep1) {
      FilledMeasures(f);
      NumberErrorCorrect(f);
      assert StepError(f, 1) == NumberError(f);
    } else {
      assert StepError(f, 1).Some?;
    }
  }

  /** `validateStep(2)` returns `null` exactly when the step-2 fields are filled in; the link is checked apart. */
  lemma Step2ErrorCorrect(f: Form)
    ensures StepError(f, 2).None? <==> Filled(f, RequiredStep2)
    ensures StepError(f, 2).Some? ==> StepError(f, 2).value == RequiredMessage(FirstBlank(f, RequiredStep2).value)
  {
  }

  /** A "… is required." message is read back as the first blank step-1 field. */
  lemma ReadBackRequired(f: Form, k: Field)
    requires k in FieldLabels
    ensures Step1ErrorField(f, RequiredMessage(k)) == FirstBlank(f, RequiredStep1)
  {
    assert 'b' !in FieldLabels[k];
    assert 'b' !in RequiredMessage(k);
    assert 'b' in "Height must be a number" && 'b' in "Mass must be a number";
    NotContainsWithout(RequiredMessage(k), "Height must be a number", 'b');
    NotContainsWithout(RequiredMessage(k), "Mass must be a number", 'b');
  }

  lemma HeightMessageNamesHeight()
    ensures Contains(HeightNumberMessage, "Height must be a number")
  {
    assert HeightNumberMessage == "Height must be a number" + " (e.g. 172 or 172.5).";
    ContainsPrefix("Height must be a number", " (e.g. 172 or 172.5).");
  }

  lemma MassMessageNamesMass()
    ensures Contains(MassNumberMessage, "Mass must be a number")
  {
    assert MassNumberMessage == "Mass must be a number" + " (e.g. 77 or 77.5).";
    ContainsPrefix("Mass must be a number", " (e.g. 77 or 77.5).");
  }

  lemma MassMessageLacksHeight()
    ensures !Contains(MassNumberMessage, "Height must be a number")
  {
    assert 'H' !in MassNumberMessage;
    NotContainsWithout(MassNumberMessage, "Height must be a number", 'H');
  }

  /** The height message is read back as the height field. */
  lemma ReadBackHeight(f: Form)
    ensures Step1ErrorField(f, HeightNumberMessage) == Some(Height)
  {
    HeightMessageNamesHeight();
  }

  /** The mass message is read back as the mass field. */
  lemma ReadBackMass(f: Form)
    ensures Step1ErrorField(f, MassNumberMessage) == Some(Mass)
  {
    MassMessageLacksHeight();
    MassMessageNamesMass();
  }

  /** Reading the step-1 message back names the field that caused it. */
  lemma Step1ErrorFieldCorrect(f: Form, parse: UrlParser)
    requires StepError(f, 1).Some?
    ensures var k := Step1ErrorField(f, StepError(f, 1).value);
      k.Some? && OwningStep(k.value) == 1 && FailsOwnCheck(f, k.value, parse)
  {
    var err := StepError(f, 1).value;
    var key := Step1ErrorField(f, err);
    match FirstBlank(f, RequiredStep1)
    case Some(k) =>
      assert err == RequiredMessage(k);
      ReadBackRequired(f, k);
      assert key == Some(k);
      assert FailsOwnCheck(f, k, parse) by {
        assert k in RequiredStep1 && Trim(At(f, k)) == "";
      }
    case None =>
      FilledMeasures(f);
      NumberErrorCorrect(f);
      if !MatchesNumber(Trim(f.height)) {
        HeightBlamed(f, parse);
        ReadBackHeight(f);
      } else {
        MassBlamed(f, parse);
        ReadBackMass(f);
      }
  }

  /** A height that does not read as a number fails the height field's own check. */
  lemma HeightBlamed(f: Form, parse: UrlParser)
    requires !MatchesNumber(Trim(f.height))
    ensures FailsOwnCheck(f, Height, parse)
  {
    assert FailsNumber(f, Height);
  }

  /** A mass that does not read as a number fails the mass field's own check. */
  lemma MassBlamed(f: Form, parse: UrlParser)
    requires !MatchesNumber(Trim(f.mass))
    ensures FailsOwnCheck(f, Mass, parse)
  {
    assert FailsNumber(f, Mass);
  }

  /** With the step-2 fields filled in, the homeworld check passes exactly when the link is http(s). */
  lemma HomeworldProblemCorrect(f: Form, parse: UrlParser)
    requires Filled(f, RequiredStep2)
    ensures HomeworldProblem(f, parse).None? <==> IsValidAnyUrl(parse, Trim(f.homeworld))
    ensures HomeworldProblem(f, parse).Some? ==> HomeworldProblem(f, parse).value.field == Some(Homeworld)
  {
    HomeworldFilled(f);
  }

  lemma HomeworldFilled(f: Form)
    requires Filled(f, RequiredStep2)
    ensures Trim(f.homeworld) != ""
  {
    assert RequiredStep2[3] == Homeworld;
    assert !IsBlankField(f, Homeworld);
    assert At(f, Homeworld) == f.homeworld;
  }

  /** Next on step 2: the required fields first, then the homeworld link. */
  lemma NextStep2Correct(f: Form, parse: UrlParser)
    ensures NextProblem(f, 2, parse).None? <==> Step2Holds(f, parse)
    ensures NextProblem(f, 2, parse).Some? ==>
      var k := NextProblem(f, 2, parse).value.field;
      k.Some? && OwningStep(k.value) == 2 && FailsOwnCheck(f, k.value, parse)
  {
    Step2ErrorCorrect(f);
    if StepError(f, 2).None? {
      HomeworldProblemCorrect(f, parse);
    } else {
      var k := FirstBlank(f, RequiredStep2).value;
      assert k in RequiredStep2 && Trim(At(f, k)) == "";
    }
  }

  /** Next advances from step `s` exactly when that step holds, and otherwise blames a field of that step that fails. */
  lemma NextProblemCorrect(f: Form, s: int, parse: UrlParser)
    requires 1 <= s <= 3
    ensures NextProblem(f, s, parse).None? <==> StepHolds(f, s, parse)
    ensures NextProblem(f, s, parse).Some? ==>
      var k := NextProblem(f, s, parse).value.field;
      k.Some? && OwningStep(k.value) == s && FailsOwnCheck(f, k.value, parse)
  {
    if s == 1 {
      Step1ErrorCorrect(f);
      if StepError(f, 1).Some? { Step1ErrorFieldCorrect(f, parse); }
    } else if s == 2 {
      NextStep2Correct(f, parse);
    } else {
      LinksProblemCorrect(f, parse);
    }
  }

  /** Save accepts exactly the forms on which every step holds. */
  lemma SaveAcceptsExactly(f: Form, parse: UrlParser)
    ensures SaveRejection(f, parse).None? <==> Step1Holds(f) && Step2Holds(f, parse) && Step3Holds(f, parse)
  {
    Step1ErrorCorrect(f);
    Step2ErrorCorrect(f);
    if StepError(f, 1).None? && StepError(f, 2).None? {
      HomeworldProblemCorrect(f, parse);
      LinksProblemCorrect(f, parse);
    }
  }

  /**
   * A rejected Save blames a field that fails, moves to the step that owns it,
   * and every step before that one holds.
   */
  lemma SaveRejectionBlames(f: Form, parse: UrlParser)
    requires SaveRejection(f, parse).Some?
    ensures var r := SaveRejection(f, parse).value;
      r.problem.field.Some? && FailsOwnCheck(f, r.problem.field.value, parse)
      && r.jumpTo == Some(OwningStep(r.problem.field.value))
      && (r.jumpTo.value > 1 ==> Step1Holds(f))
      && (r.jumpTo.value > 2 ==> Step2Holds(f, parse))
  {
    Step1ErrorCorrect(f);
    Step2ErrorCorrect(f);
    if StepError(f, 1).Some? {
      Step1ErrorFieldCorrect(f, parse);
    } else if StepError(f, 2).Some? {
      var k := FirstBlank(f, RequiredStep2).value;
      ReadBackRequired(f, k);
      assert k in RequiredStep2 && Trim(At(f, k)) == "";
    } else {
      HomeworldProblemCorrect(f, parse);
      LinksProblemCorrect(f, parse);
    }
  }

  /** Save runs the checks Next runs, on all three steps. */
  lemma SaveAgreesWithNext(f: Form, parse: UrlParser)
    ensures SaveRejection(f, parse).None? <==> forall s :: 1 <= s <= 3 ==> NextProblem(f, s, parse).None?
  {
    SaveAcceptsExactly(f, parse);
    forall s | 1 <= s <= 3 ensures NextProblem(f, s, parse).None? <==> StepHolds(f, s, parse) {
      NextProblemCorrect(f, s, parse);
    }
    assert StepHolds(f, 1, parse) == Step1Holds(f);
    assert StepHolds(f, 2, parse) == Step2Holds(f, parse);
    assert StepHolds(f, 3, parse) == Step3Holds(f, parse);
  }

  // ---------------------------------------------------------------------------
  // The record handed to onSave
  // ---------------------------------------------------------------------------

  const LocalUrlPrefix := "local://person-"

  /** The record `handleSave` builds; `now` is `new Date().toISOString()`, `nowMs` is `Date.now()`. */
  function BuildPerson(f: Form, now: string, nowMs: nat): (p: Person)
    ensures p.created == now && p.edited == now
    ensures p.url != ""
    ensures Trim(f.url) == "" ==> p.url == LocalUrlPrefix + NatToString(nowMs)
    ensures Trim(f.url) != "" ==> p.url == Trim(f.url)
    ensures p.name == Trim(f.name) && p.height == Trim(f.height) && p.mass == Trim(f.mass)
    ensures p.hairColor == Trim(f.hairColor) && p.skinColor == Trim(f.skinColor) && p.eyeColor == Trim(f.eyeColor)
    ensures p.birthYear == Trim(f.birthYear) && p.gender == Trim(f.gender) && p.homeworld == Trim(f.homeworld)
    ensures p.films == ParseCommaList(f.films) && p.species == ParseCommaList(f.species)
    ensures p.vehicles == ParseCommaList(f.vehicles) && p.starships == ParseCommaList(f.starships)
  {
    Person(
      name := Trim(f.name), height := Trim(f.height), mass := Trim(f.mass),
      hairColor := Trim(f.hairColor), skinColor := Trim(f.skinColor), eyeColor := Trim(f.eyeColor),
      birthYear := Trim(f.birthYear), gender := Trim(f.gender), homeworld := Trim(f.homeworld),
      films := ParseCommaList(f.films), species := ParseCommaList(f.species),
      vehicles := ParseCommaList(f.vehicles), starships := ParseCommaList(f.starships),
      created := now, edited := now,
      url := if Trim(f.url) != "" then Trim(f.url) else LocalUrlPrefix + NatToString(nowMs))
  }

  /** What a person record that Save hands on looks like: trimmed text, numeric measures, valid links. */
  ghost predicate SubmittedPersonValid(p: Person, parse: UrlParser) {
    PersonTextValid(p) && IsDecimalNumber(p.height) && IsDecimalNumber(p.mass)
    && PersonLinksValid(p, parse) && p.url != ""
  }

  predicate PersonTextValid(p: Person) {
    IsTrimmedText(p.name) && IsTrimmedText(p.height) && IsTrimmedText(p.mass)
    && IsTrimmedText(p.hairColor) && IsTrimmedText(p.skinColor) && IsTrimmedText(p.eyeColor)
    && IsTrimmedText(p.birthYear) && IsTrimmedText(p.gender) && IsTrimmedText(p.homeworld)
  }

  ghost predicate PersonLinksValid(p: Person, parse: UrlParser) {
    IsValidAnyUrl(parse, p.homeworld) && forall kind :: LinksOfKind(LinksOf(p, kind), parse, kind)
  }

  /** Every link is trimmed text and a URL of the kind. */
  ghost predicate LinksOfKind(urls: seq<string>, parse: UrlParser, kind: ResourceKind) {
    forall u :: u in urls ==> IsTrimmedText(u) && ResourceUrlSpec(parse, u, kind)
  }

  /** A filled-in field, trimmed, is trimmed text. */
  lemma FilledIsTrimmedText(f: Form, keys: seq<Field>, k: Field)
    requires Filled(f, keys) && k in keys
    ensures IsTrimmedText(Trim(At(f, k)))
  {
    TrimIdempotent(At(f, k));
  }

  /** The tokens of a list that holds are links of its kind. */
  lemma LinksValid(f: Form, parse: UrlParser, kind: ResourceKind)
    requires ListHolds(f, parse, kind)
    ensures LinksOfKind(ParseCommaList(At(f, ListField(kind))), parse, kind)
  {
  }

  /** The record's list of the kind's links. */
  function LinksOf(p: Person, kind: ResourceKind): seq<string> {
    match kind
    case FilmKind => p.films
    case SpeciesKind => p.species
    case VehicleKind => p.vehicles
    case StarshipKind => p.starships
  }

  /** The record's list of a kind is the tokens of the form's list of that kind. */
  lemma BuiltListIsTokens(f: Form, now: string, nowMs: nat, kind: ResourceKind)
    ensures LinksOf(BuildPerson(f, now, nowMs), kind) == ParseCommaList(At(f, ListField(kind)))
  {
    var raw := At(f, ListField(kind));
    match kind
    case FilmKind => assert raw == f.films;
    case SpeciesKind => assert raw == f.species;
    case VehicleKind => assert raw == f.vehicles;
    case StarshipKind => assert raw == f.starships;
  }

  /** With steps 1 and 2 filled in, the record's text fields are trimmed and non-empty. */
  lemma BuiltTextValid(f: Form, now: string, nowMs: nat)
    requires Filled(f, RequiredStep1) && Filled(f, RequiredStep2)
    ensures PersonTextValid(BuildPerson(f, now, nowMs))
  {
    assert Name in RequiredStep1 && Height in RequiredStep1 && Mass in RequiredStep1;
    assert BirthYear in RequiredStep1 && Gender in RequiredStep1;
    assert HairColor in RequiredStep2 && SkinColor in RequiredStep2;
    assert EyeColor in RequiredStep2 && Homeworld in RequiredStep2;
    FilledIsTrimmedText(f, RequiredStep1, Name);
    FilledIsTrimmedText(f, RequiredStep1, Height);
    FilledIsTrimmedText(f, RequiredStep1, Mass);
    FilledIsTrimmedText(f, RequiredStep1, BirthYear);
    FilledIsTrimmedText(f, RequiredStep1, Gender);
    FilledIsTrimmedText(f, RequiredStep2, HairColor);
    FilledIsTrimmedText(f, RequiredStep2, SkinColor);
    FilledIsTrimmedText(f, RequiredStep2, EyeColor);
    FilledIsTrimmedText(f, RequiredStep2, Homeworld);
  }

  /** With a valid homeworld and step 3 holding, the record's links are valid. */
  lemma BuiltLinksValid(f: Form, parse: UrlParser, now: string, nowMs: nat)
    requires IsValidAnyUrl(parse, Trim(f.homeworld)) && Step3Holds(f, parse)
    ensures PersonLinksValid(BuildPerson(f, now, nowMs), parse)
  {
    var p := BuildPerson(f, now, nowMs);
    assert p.homeworld == Trim(f.homeworld);
    forall kind ensures LinksOfKind(LinksOf(p, kind), parse, kind) {
      assert ListHolds(f, parse, kind) by {
        match kind
        case FilmKind =>
        case SpeciesKind =>
        case VehicleKind =>
        case StarshipKind =>
      }
      BuiltListIsTokens(f, now, nowMs, kind);
      LinksValid(f, parse, kind);
    }
  }

  /** A form on which every step holds builds a valid record, whatever the clock reads. */
  lemma ValidFormBuildsValidPerson(f: Form, parse: UrlParser, now: string, nowMs: nat)
    requires Step1Holds(f) && Step2Holds(f, parse) && Step3Holds(f, parse)
    ensures SubmittedPersonValid(BuildPerson(f, now, nowMs), parse)
  {
    BuiltTextValid(f, now, nowMs);
    BuiltLinksValid(f, parse, now, nowMs);
    MatchesNumberCorrect(Trim(f.height));
    MatchesNumberCorrect(Trim(f.mass));
  }

  /** So every record Save hands to its callback is valid. */
  lemma AcceptedFormBuildsValidPerson(f: Form, parse: UrlParser, now: string, nowMs: nat)
    requires SaveRejection(f, parse).None?
    ensures SubmittedPersonValid(BuildPerson(f, now, nowMs), parse)
  {
    SaveAcceptsExactly(f, parse);
    ValidFormBuildsValidPerson(f, parse, now, nowMs);
  }
}
