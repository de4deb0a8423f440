/** The character detail screen: its label formatting, error text, which rows show, the hero line and the films panel. */
module StarWarsDetail {
  import opened Wrappers
  import opened Text
  import opened Sequences
  import opened StarWars
  import opened Films
  import opened PersonListItem

  /** `formatLabel`: "N/A" for an empty value and for "n/a", the value capitalised otherwise. */
  function FormatLabel(s: string): (r: string)
    ensures r != ""
    ensures s == "" || s == "n/a" ==> r == "N/A"
    ensures s != "" && s != "n/a" ==> |r| == |s| && r[0] == UpperChar(s[0]) && r[1..] == Lower(s[1..])
  {
    if s == "" || s == "n/a" then "N/A" else Capitalize(s)
  }

  /** The detail screen and the list row format a gender alike, except for "" and "n/a". */
  lemma FormatLabelAgreesWithList(s: string)
    ensures s != "" && s != "n/a" ==> FormatLabel(s) == FormatGender(s)
    ensures FormatLabel("n/a") == "N/A" && FormatGender("n/a") == "n/a"
  {
  }

  /** What the films query can report as its error. */
  datatype ErrorValue =
    | ErrorInstance(message: string)       // an `Error`
    | PlainObject(messageField: Option<string>) // a non-null object; `Some` when its `message` is a string
    | NotAnObject                          // `null`, a string, a number, ...

  const ErrorFallback := "Something went wrong."

  /** `getErrorMessage` */
  function ErrorMessage(err: ErrorValue): (m: string)
    ensures err.ErrorInstance? ==> m == err.message
    ensures err.PlainObject? && err.messageField.Some? ==> m == err.messageField.value
    ensures err.NotAnObject? || err == PlainObject(None) ==> m == ErrorFallback
  {
    match err
    case ErrorInstance(message) => message
    case PlainObject(Some(message)) => message
    case _ => ErrorFallback
  }

  /** `DetailRow` renders nothing for `null`, `undefined` and `""`. */
  predicate RowShown(value: Option<string>) {
    value.Some? && value.value != ""
  }

  /** The eight rows of the details card, in order, before hiding. */
  function DetailFields(p: Person): seq<(string, string)> {
    [("Gender", p.gender), ("Birth year", p.birthYear), ("Height", p.height), ("Mass", p.mass),
     ("Hair color", p.hairColor), ("Skin color", p.skinColor), ("Eye color", p.eyeColor),
     ("Homeworld", p.homeworld)]
  }

  predicate HasValue(row: (string, string)) {
    RowShown(Some(row.1))
  }

  /** The rows the card shows. */
  function DetailRows(p: Person): (rows: seq<(string, string)>)
    ensures |rows| <= 8
    ensures forall i :: 0 <= i < |rows| ==> rows[i].1 != ""
  {
    Filter(DetailFields(p), HasValue)
  }

  /** A row is shown exactly when its value is non-empty, and that row shows the value. */
  lemma DetailRowsExactly(p: Person, name: string, value: string)
    ensures (name, value) in DetailRows(p) <==> (name, value) in DetailFields(p) && value != ""
  {
    FilterMembership(DetailFields(p), HasValue, (name, value));
  }

  /** The birth year row is shown exactly when the birth year is non-empty. */
  lemma BirthYearRow(p: Person)
    ensures ("Birth year", p.birthYear) in DetailRows(p) <==> p.birthYear != ""
  {
    assert DetailFields(p)[1] == ("Birth year", p.birthYear);
    DetailRowsExactly(p, "Birth year", p.birthYear);
  }

  /** The separator as the source spells it: a capital A with circumflex, then a middle dot. */
  const HeroSeparator := " \U{C2}\U{B7} "

  predicate IsNonEmptyText(s: string) { s != "" }

  /**
   * The hero line under the name: `None` unless gender or birth year is set, else the
   * non-empty items of `[gender && formatLabel(gender), birth_year]` joined by the separator.
   */
  function HeroMeta(p: Person): (r: Option<string>)
    ensures r.None? <==> p.gender == "" && p.birthYear == ""
  {
    if p.gender == "" && p.birthYear == "" then None
    else Some(Join(Filter(HeroItems(p), IsNonEmptyText), HeroSeparator))
  }

  function HeroItems(p: Person): seq<string> {
    [if p.gender == "" then "" else FormatLabel(p.gender), p.birthYear]
  }

  /** The hero line holds the formatted gender and the birth year that are set, separated only when both are. */
  lemma HeroMetaParts(p: Person)
    ensures p.gender != "" && p.birthYear != "" ==> HeroMeta(p) == Some(FormatLabel(p.gender) + HeroSeparator + p.birthYear)
    ensures p.gender != "" && p.birthYear == "" ==> HeroMeta(p) == Some(FormatLabel(p.gender))
    ensures p.gender == "" && p.birthYear != "" ==> HeroMeta(p) == Some(p.birthYear)
  {
    var items := HeroItems(p);
    var last := [p.birthYear];
    assert items[1..] == last;
    assert last[1..] == [];
    var tail := Filter(last, IsNonEmptyText);
    assert tail == (if p.birthYear != "" then last else []) + Filter([], IsNonEmptyText);
    assert tail == (if p.birthYear != "" then last else []);
    var head := if p.gender != "" then [FormatLabel(p.gender)] else [];
    assert Filter(items, IsNonEmptyText) == head + tail;
    if p.gender != "" && p.birthYear != "" {
      var both := head + tail;
      assert both[1..] == last;
      assert Join(both, HeroSeparator) == both[0] + HeroSeparator + Join(last, HeroSeparator);
    }
  }

  /** What the films card shows. */
  datatype FilmsPanel = NoPanel | FilmsSpinner | FilmsError(message: string) | FilmList(films: seq<Film>)

  /**
   * The films card: shown only for a person with films; while any film loads a
   * spinner, else the first error with a retry, else the films loaded so far.
   */
  function FilmsPanelFor(p: Person, results: seq<QueryResult<ErrorValue>>): (panel: FilmsPanel)
    ensures panel.NoPanel? <==> |p.films| == 0
    ensures panel.FilmsSpinner? <==> |p.films| > 0 && exists i :: 0 <= i < |results| && results[i].isLoading
    ensures panel.FilmsError? <==>
      && |p.films| > 0
      && (forall i :: 0 <= i < |results| ==> !results[i].isLoading)
      && exists i :: 0 <= i < |results| && results[i].error.Some?
    ensures panel.FilmsError? ==> panel.message == ErrorMessage(FirstError(results).value)
    ensures panel.FilmList? ==> panel.films == LoadedFilms(results)
  {
    if |p.films| == 0 then NoPanel
    else if AnyLoading(results) then FilmsSpinner
    else match FirstError(results)
      case Some(err) => FilmsError(ErrorMessage(err))
      case None => FilmList(LoadedFilms(results))
  }

  /** Once every film query has data and none failed, the card lists every film of the person, in order. */
  lemma AllFilmsListed(p: Person, results: seq<QueryResult<ErrorValue>>)
    requires |results| == |FilmQueries(p.films)| && |p.films| > 0
    requires forall i :: 0 <= i < |results| ==> results[i].data.Some? && !results[i].isLoading && results[i].error.None?
    ensures FilmsPanelFor(p, results).FilmList?
    ensures |FilmsPanelFor(p, results).films| == |p.films|
    ensures forall i :: 0 <= i < |results| ==> FilmsPanelFor(p, results).films[i] == results[i].data.value
  {
    AllLoadedShowsAll(results);
  }
}
