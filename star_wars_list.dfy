/**
 * The derived values and handlers of the characters list screen: the merged list,
 * the gender chips, the search and gender filter, the end-of-list guard, which
 * screen and footer are shown, and how the outcome of a save is classified.
 */
module StarWarsList {
  import opened Wrappers
  import opened Text
  import opened Sequences
  import opened StarWars
  import opened StarWarsPeople
  import opened AddedPeople
  import opened AddPersonModal

  // ---------------------------------------------------------------------------
  // genderChipLabel
  // ---------------------------------------------------------------------------

  /** The text of a gender chip: "All" for the empty option, "N/A" for "n/a", else capitalised. */
  function GenderChipLabel(value: string): (chip: string)
    ensures value == "" ==> chip == "All"
    ensures value == "n/a" ==> chip == "N/A"
    ensures value != "" ==> |chip| == |value|
    ensures value != "" && value != "n/a" ==> chip[0] == UpperChar(value[0]) && chip[1..] == Lower(value[1..])
  {
    if value == "" then "All"
    else if value == "n/a" then "N/A"
    else Capitalize(value)
  }

  lemma {:induction false} LowerOfCapitalize(s: string)
    ensures Lower(Capitalize(s)) == Lower(s)
  {
    if s != [] {
      LowerIdempotent(s[1..]);
      assert Lower(Capitalize(s))[0] == LowerChar(UpperChar(s[0]));
      assert Lower(Capitalize(s))[1..] == Lower(Lower(s[1..]));
      assert Lower(s) == [LowerChar(s[0])] + Lower(s[1..]);
    }
  }

  /** Every chip but "All" reads as its own option once case is ignored, which is how the filter compares. */
  lemma ChipLabelNamesOption(value: string)
    requires value != "" && Lower(value) == value
    ensures Lower(GenderChipLabel(value)) == value
  {
    if value == "n/a" {
      assert Lower("N/A") == "n/a";
    } else {
      LowerOfCapitalize(value);
    }
  }

  // ---------------------------------------------------------------------------
  // people: the added people, then the loaded pages
  // ---------------------------------------------------------------------------

  /** `[...addedPeopleFromRedux, ...(apiPeople ?? [])]` */
  function People(added: seq<Person>, pages: Option<seq<PeoplePage>>): (people: seq<Person>)
    ensures |people| == |added| + |ApiPeople(pages)|
    ensures people[..|added|] == added
    ensures people[|added|..] == ApiPeople(pages)
  {
    added + ApiPeople(pages)
  }

  /** Every person saved locally is listed before every person loaded from the API. */
  lemma LocalBeforeRemote(added: seq<Person>, pages: Option<seq<PeoplePage>>, i: nat, j: nat)
    requires i < |added| && j < |ApiPeople(pages)|
    ensures People(added, pages)[i] == added[i]
    ensures People(added, pages)[|added| + j] == ApiPeople(pages)[j]
  {
  }

  /** Before the first page arrives the list is exactly the locally saved people. */
  lemma NothingLoadedShowsAdded(added: seq<Person>)
    ensures People(added, None) == added
  {
  }

  // ---------------------------------------------------------------------------
  // genderOptions: "" then the sorted distinct non-empty lowercase genders
  // ---------------------------------------------------------------------------

  predicate StrictlySorted(s: seq<string>) {
    forall i, j :: 0 <= i < j < |s| ==> Less(s[i], s[j])
  }

  /** `x` put into its place in a strictly sorted list, unless it is already there. */
  function Insert(x: string, s: seq<string>): (r: seq<string>)
    requires StrictlySorted(s)
    ensures StrictlySorted(r)
    ensures forall y :: y in r <==> y == x || y in s
  {
    if s == [] then [x]
    else if x == s[0] then s
    else if Less(x, s[0]) then
      assert forall j :: 0 < j < |s| ==> Less(s[0], s[j]);
      InsertFront(x, s);
      [x] + s
    else
      LessTotal(x, s[0]);
      var rest := Insert(x, s[1..]);
      assert forall y :: y in rest ==> Less(s[0], y) by {
        forall y | y in rest ensures Less(s[0], y) {
          if y != x {
            var k :| 0 <= k < |s[1..]| && s[1..][k] == y;
            assert s[k + 1] == y;
          }
        }
      }
      SortedCons(s[0], rest);
      [s[0]] + rest
  }

  lemma InsertFront(x: string, s: seq<string>)
    requires StrictlySorted(s) && s != [] && Less(x, s[0])
    ensures StrictlySorted([x] + s)
  {
    forall j | 0 < j < |s| ensures Less(x, s[j]) {
      LessTransitive(x, s[0], s[j]);
    }
  }

  lemma SortedCons(x: string, s: seq<string>)
    requires StrictlySorted(s) && forall y :: y in s ==> Less(x, y)
    ensures StrictlySorted([x] + s)
  {
    assert forall j :: 0 <= j < |s| ==> s[j] in s;
  }

  /** `Array.from(new Set(xs)).sort()` */
  function SortedDistinct(xs: seq<string>): (r: seq<string>)
    ensures StrictlySorted(r)
    ensures forall y :: y in r <==> y in xs
  {
    if xs == [] then [] else Insert(xs[0], SortedDistinct(xs[1..]))
  }

  /** A strictly sorted list is fixed by its elements: any set-then-sort gives this list. */
  lemma {:induction false} StrictlySortedUnique(a: seq<string>, b: seq<string>)
    requires StrictlySorted(a) && StrictlySorted(b)
    requires forall y :: y in a <==> y in b
    ensures a == b
  {
    if a != [] { assert a[0] in a; }
    if b != [] { assert b[0] in b; }
    if a != [] && b != [] {
      assert a[0] in b && b[0] in a;
      if a[0] != b[0] {
        var ka :| 0 <= ka < |a| && a[ka] == b[0];
        var kb :| 0 <= kb < |b| && b[kb] == a[0];
        assert ka > 0 && kb > 0;
        assert Less(a[0], b[0]) && Less(b[0], a[0]);
        LessTransitive(a[0], b[0], a[0]);
        LessIrreflexive(a[0]);
      }
      forall y ensures y in a[1..] <==> y in b[1..] {
        if y in a[1..] {
          var k :| 0 <= k < |a[1..]| && a[1..][k] == y;
          assert Less(a[0], a[k + 1]);
          LessIrreflexive(y);
        }
        if y in b[1..] {
          var k :| 0 <= k < |b[1..]| && b[1..][k] == y;
          assert Less(b[0], b[k + 1]);
          LessIrreflexive(y);
        }
        assert y in a <==> y == a[0] || y in a[1..];
        assert y in b <==> y == b[0] || y in b[1..];
      }
      StrictlySortedUnique(a[1..], b[1..]);
      assert a == [a[0]] + a[1..] && b == [b[0]] + b[1..];
    }
  }

  /** `people.map(p => p.gender.toLowerCase())` */
  function LowerGenders(people: seq<Person>): (r: seq<string>)
    ensures |r| == |people|
    ensures forall i :: 0 <= i < |people| ==> r[i] == Lower(people[i].gender)
  {
    if people == [] then [] else [Lower(people[0].gender)] + LowerGenders(people[1..])
  }

  predicate IsNonEmptyText(s: string) { s != "" }

  /** `["", ...Array.from(new Set(genders)).filter(Boolean).sort()]` */
  function GenderOptions(people: seq<Person>): seq<string> {
    [""] + SortedDistinct(Filter(LowerGenders(people), IsNonEmptyText))
  }

  /**
   * The options start with "" (All); the rest are strictly sorted, hence free of
   * duplicates, never empty, and are exactly the lowercase genders that occur.
   */
  lemma GenderOptionsCorrect(people: seq<Person>)
    ensures GenderOptions(people)[0] == ""
    ensures StrictlySorted(GenderOptions(people)[1..])
    ensures "" !in GenderOptions(people)[1..]
    ensures forall g :: g in GenderOptions(people)[1..] <==>
      g != "" && exists i :: 0 <= i < |people| && Lower(people[i].gender) == g
  {
    var genders := LowerGenders(people);
    var rest := SortedDistinct(Filter(genders, IsNonEmptyText));
    assert GenderOptions(people)[1..] == rest;
    forall g ensures g in rest <==> g != "" && g in genders {
      FilterMembership(genders, IsNonEmptyText, g);
    }
    forall g ensures g in genders <==> exists i :: 0 <= i < |people| && Lower(people[i].gender) == g {
      if g in genders {
        var i :| 0 <= i < |genders| && genders[i] == g;
        assert Lower(people[i].gender) == g;
      }
    }
  }

  /** No two chips are the same option. */
  lemma GenderOptionsDistinct(people: seq<Person>, i: nat, j: nat)
    requires i < j < |GenderOptions(people)|
    ensures GenderOptions(people)[i] != GenderOptions(people)[j]
  {
    GenderOptionsCorrect(people);
    var opts := GenderOptions(people);
    if i == 0 {
      assert opts[j] == opts[1..][j - 1];
    } else {
      assert opts[i] == opts[1..][i - 1] && opts[j] == opts[1..][j - 1];
      LessIrreflexive(opts[i]);
    }
  }

  // ---------------------------------------------------------------------------
  // filtered
  // ---------------------------------------------------------------------------

  /** `item.name.toLowerCase().includes(search.toLowerCase())`, on the untrimmed search text. */
  predicate NameMatches(p: Person, search: string) {
    Contains(Lower(p.name), Lower(search))
  }

  /** `item.gender.toLowerCase() === genderFilter.toLowerCase()` */
  predicate GenderMatches(p: Person, genderFilter: string) {
    Lower(p.gender) == Lower(genderFilter)
  }

  /** The search filter applies only when the trimmed search is non-empty; the gender filter only for a chosen gender. */
  function Filtered(people: seq<Person>, search: string, genderFilter: string): seq<Person> {
    var bySearch := if Trim(search) != "" then Filter(people, (p: Person) => NameMatches(p, search)) else people;
    if genderFilter != "" then Filter(bySearch, (p: Person) => GenderMatches(p, genderFilter)) else bySearch
  }

  /** Whether a person is shown, as one condition. */
  predicate Shown(p: Person, search: string, genderFilter: string) {
    && (Trim(search) == "" || NameMatches(p, search))
    && (genderFilter == "" || GenderMatches(p, genderFilter))
  }

  /** The two filters in a row are one filter by `Shown`. */
  lemma FilteredIsOneFilter(people: seq<Person>, search: string, genderFilter: string)
    ensures Filtered(people, search, genderFilter) == Filter(people, (p: Person) => Shown(p, search, genderFilter))
  {
    if Trim(search) != "" && genderFilter != "" {
      SearchAndGender(people, search, genderFilter);
    } else if Trim(search) != "" {
      SearchOnly(people, search);
    } else if genderFilter != "" {
      GenderOnly(people, search, genderFilter);
    } else {
      FilterKeepsAll(people, (p: Person) => Shown(p, search, genderFilter));
    }
  }

  lemma SearchAndGender(people: seq<Person>, search: string, genderFilter: string)
    requires Trim(search) != "" && genderFilter != ""
    ensures Filtered(people, search, genderFilter) == Filter(people, (p: Person) => Shown(p, search, genderFilter))
  {
    FilterFilter(people, (p: Person) => NameMatches(p, search), (p: Person) => GenderMatches(p, genderFilter),
      (p: Person) => Shown(p, search, genderFilter));
  }

  lemma SearchOnly(people: seq<Person>, search: string)
    requires Trim(search) != ""
    ensures Filtered(people, search, "") == Filter(people, (p: Person) => Shown(p, search, ""))
  {
    FilterCongruent(people, (p: Person) => NameMatches(p, search), (p: Person) => Shown(p, search, ""));
  }

  lemma GenderOnly(people: seq<Person>, search: string, genderFilter: string)
    requires Trim(search) == "" && genderFilter != ""
    ensures Filtered(people, search, genderFilter) == Filter(people, (p: Person) => Shown(p, search, genderFilter))
  {
    FilterCongruent(people, (p: Person) => GenderMatches(p, genderFilter), (p: Person) => Shown(p, search, genderFilter));
  }

  /** The shown list keeps the order of `people` and leaves some out. */
  lemma FilteredIsSubsequence(people: seq<Person>, search: string, genderFilter: string)
    ensures IsSubsequence(Filtered(people, search, genderFilter), people)
  {
    FilteredIsOneFilter(people, search, genderFilter);
    FilterIsSubsequence(people, (p: Person) => Shown(p, search, genderFilter));
  }

  /** A person is shown exactly when it is listed and passes both filters. */
  lemma FilteredMembership(people: seq<Person>, search: string, genderFilter: string, x: Person)
    ensures x in Filtered(people, search, genderFilter) <==> x in people && Shown(x, search, genderFilter)
  {
    FilteredIsOneFilter(people, search, genderFilter);
    FilterMembership(people, (p: Person) => Shown(p, search, genderFilter), x);
  }

  /** With a blank search and no gender chosen, everyone is shown. */
  lemma NoFilterShowsAll(people: seq<Person>, search: string)
    requires Trim(search) == ""
    ensures Filtered(people, search, "") == people
  {
  }

  // ---------------------------------------------------------------------------
  // handleEndReached
  // ---------------------------------------------------------------------------

  /**
   * The pagination state of `useStarWarsPeople` (`hasNextPage`, `isFetchingNextPage`),
   * the copies of those flags captured by the last render's `handleEndReached` closure
   * (`shownHasNext`, `shownFetching`), the number of next-page requests started so far,
   * and how many of them are still pending (a new `fetchNextPage` call restarts a pending one).
   */
  class PageFeed {
    var hasNextPage: bool
    var isFetchingNextPage: bool
    var shownHasNext: bool
    var shownFetching: bool
    var requests: nat
    var pending: nat

    /** The query owns the flag: it is set exactly while a next-page request is pending. */
    predicate Valid()
      reads this
    {
      pending <= 1 && (isFetchingNextPage <==> pending == 1)
    }

    /** The first render: nothing is being fetched and the closure sees the query's flags. */
    constructor (hasNext: bool)
      ensures Valid() && hasNextPage == hasNext && !isFetchingNextPage && requests == 0
      ensures shownHasNext == hasNext && !shownFetching
    {
      hasNextPage := hasNext;
      isFetchingNextPage := false;
      shownHasNext := hasNext;
      shownFetching := false;
      requests := 0;
      pending := 0;
    }

    /** A re-render: `useCallback` builds a new closure over the current flags. */
    method Render()
      requires Valid()
      modifies this
      ensures Valid()
      ensures shownHasNext == hasNextPage && shownFetching == isFetchingNextPage
      ensures unchanged(this`hasNextPage, this`isFetchingNextPage, this`requests, this`pending)
    {
      shownHasNext := hasNextPage;
      shownFetching := isFetchingNextPage;
    }

    /**
     * `if (hasNextPage && !isFetchingNextPage) fetchNextPage()`, where both flags are the
     * ones the closure captured at the last render.
     */
    method HandleEndReached()
      requires Valid()
      modifies this
      ensures Valid()
      ensures requests == old(requests) + (if old(shownHasNext) && !old(shownFetching) then 1 else 0)
      ensures old(shownFetching) || !old(shownHasNext) ==> unchanged(this)
      ensures old(shownHasNext) && !old(shownFetching) ==> isFetchingNextPage && pending == 1
      ensures hasNextPage == old(hasNextPage)
      ensures unchanged(this`shownHasNext, this`shownFetching)
    {
      if shownHasNext && !shownFetching {
        FetchNextPage();
      }
    }

    /**
     * Two end-of-list events with a render between them: the second closure sees the fetch
     * the first one started, so at most one request is made.
     */
    method EndReachedRenderedBetween()
      requires Valid()
      modifies this
      ensures Valid()
      ensures requests <= old(requests) + 1
      ensures hasNextPage == old(hasNextPage)
    {
      HandleEndReached();
      Render();
      HandleEndReached();
    }

    /**
     * Two end-of-list events with no render between them: both run the same closure, so
     * when it lets a fetch through, two requests are started (the second restarts the first).
     */
    method EndReachedTwiceUnrendered()
      requires Valid()
      modifies this
      ensures Valid()
      ensures requests == old(requests) + (if old(shownHasNext) && !old(shownFetching) then 2 else 0)
      ensures hasNextPage == old(hasNextPage)
    {
      HandleEndReached();
      HandleEndReached();
    }

    /** `fetchNextPage()`: one more request, now the pending one. */
    method FetchNextPage()
      requires Valid()
      modifies this
      ensures Valid() && isFetchingNextPage && pending == 1
      ensures requests == old(requests) + 1 && hasNextPage == old(hasNextPage)
      ensures unchanged(this`shownHasNext, this`shownFetching)
    {
      requests := requests + 1;
      pending := 1;
      isFetchingNextPage := true;
    }

    /** The pending page arrived; `more` is whether its `next` link gives another page. */
    method PageSettled(more: bool)
      requires Valid() && isFetchingNextPage
      modifies this
      ensures Valid() && !isFetchingNextPage && hasNextPage == more && requests == old(requests)
      ensures unchanged(this`shownHasNext, this`shownFetching)
    {
      pending := 0;
      isFetchingNextPage := false;
      hasNextPage := more;
    }
  }

  // ---------------------------------------------------------------------------
  // Which screen and which footer
  // ---------------------------------------------------------------------------

  datatype Footer = NoFooter | PageSpinner | InlineRetry(message: string) | LoadedAll

  datatype Screen = LoadingScreen | ErrorScreen(message: string) | ListScreen(footer: Footer)

  const LoadErrorFallback := "Something went wrong. Please try again."
  const LoadMoreFallback := "Couldn\U{2019}t load more."

  /** `message || fallback` */
  function MessageOr(message: string, fallback: string): (r: string)
    ensures message != "" ==> r == message
    ensures message == "" ==> r == fallback
  {
    if message != "" then message else fallback
  }

  /**
   * The screen the component renders. `error` is the query error's message (`None`
   * when there is no error, `Some("")` for an error without a message).
   */
  function ScreenFor(isLoading: bool, error: Option<string>, people: seq<Person>, filtered: seq<Person>,
                     isFetchingNextPage: bool, hasNextPage: bool): (s: Screen)
    ensures s.LoadingScreen? <==> isLoading
    ensures s.ErrorScreen? <==> !isLoading && error.Some? && |people| == 0
    ensures s.ErrorScreen? ==> s.message != "" && (error.value != "" ==> s.message == error.value)
    ensures s.ErrorScreen? && error.value == "" ==> s.message == LoadErrorFallback
    ensures s.ListScreen? && s.footer.PageSpinner? <==> !isLoading && isFetchingNextPage && (error.None? || |people| > 0)
    ensures s.ListScreen? && s.footer.InlineRetry? <==> !isLoading && !isFetchingNextPage && error.Some? && |people| > 0
    ensures s.ListScreen? && s.footer.InlineRetry? ==> s.footer.message != "" && (error.value != "" ==> s.footer.message == error.value)
    ensures s.ListScreen? && s.footer.InlineRetry? && error.value == "" ==> s.footer.message == LoadMoreFallback
    ensures s.ListScreen? && s.footer.LoadedAll? <==>
      !isLoading && !isFetchingNextPage && error.None? && !hasNextPage && |filtered| > 0
  {
    if isLoading then LoadingScreen
    else if error.Some? && |people| == 0 then ErrorScreen(MessageOr(error.value, LoadErrorFallback))
    else ListScreen(FooterFor(error, people, filtered, isFetchingNextPage, hasNextPage))
  }

  /** `ListFooter` */
  function FooterFor(error: Option<string>, people: seq<Person>, filtered: seq<Person>,
                     isFetchingNextPage: bool, hasNextPage: bool): Footer
  {
    if isFetchingNextPage then PageSpinner
    else if error.Some? && |people| > 0 then InlineRetry(MessageOr(error.value, LoadMoreFallback))
    else if !hasNextPage && |filtered| > 0 then LoadedAll
    else NoFooter
  }

  // ---------------------------------------------------------------------------
  // onSave
  // ---------------------------------------------------------------------------

  /**
   * How `dummySavePersonApi()` settled: resolved, or rejected with whatever
   * `status` and `message` the thrown value carries.
   */
  datatype SaveAttempt = Resolved | Rejected(status: Option<int>, message: Option<string>)

  const SaveFailedFallback := "Failed to save. Please check your connection and try again."

  /** `httpPost` with `dummySuccess` set throws `Error("Not Found")` with status 404 and sends nothing. */
  const DummyAttempt := Rejected(Some(404), Some("Not Found"))

  /** The one case the screen treats as a successful save: a thrown 4xx status. */
  predicate SavedLocally(attempt: SaveAttempt) {
    attempt.Rejected? && attempt.status.Some? && 400 <= attempt.status.value < 500
  }

  /** What `onSave` resolves with, as the modal reads it. */
  function SaveReplyFor(attempt: SaveAttempt): (r: SaveReply)
    ensures r.Completed? <==> attempt.Resolved? || SavedLocally(attempt)
    ensures r.Failed? ==> r.error != ""
    ensures r.Failed? && attempt.message.Some? && attempt.message.value != "" ==> r.error == attempt.message.value
    ensures r.Failed? && (attempt.message.None? || attempt.message.value == "") ==> r.error == SaveFailedFallback
    ensures !r.Threw?
  {
    match attempt
    case Resolved => Completed
    case Rejected(status, message) =>
      if SavedLocally(attempt) then Completed
      else Failed(MessageOr(message.GetOr(""), SaveFailedFallback))
  }

  /** `onSave(person)`: a 4xx rejection adds the person to the store; nothing else touches it. */
  method OnSave(store: AddedPeopleStore, person: Person, attempt: SaveAttempt) returns (reply: SaveReply)
    modifies store
    ensures reply == SaveReplyFor(attempt)
    ensures SavedLocally(attempt) ==> store.list == Prepend(old(store.list), person)
    ensures !SavedLocally(attempt) ==> unchanged(store)
  {
    if SavedLocally(attempt) {
      store.AddPerson(person);
      return Completed;
    }
    if attempt.Resolved? {
      return Completed;
    }
    return Failed(MessageOr(attempt.message.GetOr(""), SaveFailedFallback));
  }

  /** With the dummy save in place every save is stored locally and closes the form. */
  lemma DummySaveIsStored()
    ensures SavedLocally(DummyAttempt)
    ensures SaveReplyFor(DummyAttempt) == Completed
  {
  }
}
