# Star Wars characters app: a Dafny model of its logic

The app is a React Native browser for Star Wars characters. It shows three kinds of data:

- a paged list of people fetched from the SWAPI `people` endpoint;
- the people a user saved locally through a four-page "add person" wizard;
- a detail screen for each person, including the films they appear in.

This project models the logic under the screens, module by module:

- `AddPersonRules` and `AddPersonModal` model `app/models/AddPersonModal.tsx`.
  - The rules module holds the wizard's checks as functions: comma-list tokenising, required fields, the number pattern, the URL patterns, and the checks run by Next and Save.
  - The modal module holds a class with the component state: `step`, `form`, the error slot, and `saving`. Its handlers are methods that run the checks step by step, as the component does, and are proved to agree with the rules.
- `StarWarsList` models `app/screens/StarWarsList.tsx`. It holds:
  - the merge of local and API people;
  - the gender chips;
  - the search and gender filter;
  - the end-of-list guard, as a small class;
  - the choice of screen and list footer;
  - the `onSave` callback, which decides on the dummy POST's outcome and writes to the store.
- `StarWarsPeople` models `app/hooks/useStarWarsPeople.ts`. It covers envelope parsing, the `page` cursor read with `[?&]page=(\d+)`, the next-page parameter, and the flattening of pages.
- `Films` models `app/hooks/useFilms.ts`: one query per film URL and the aggregation of their results.
- `AddedPeople` models `app/redux/addedPeopleSlice.ts`. It is a store class whose `addPerson` puts the person at the front of the list.
- `PersonListItem` and `StarWarsDetail` model the formatters and display rules of `app/components/PersonListItem.tsx` and `app/screens/StarWarsDetail.tsx`.

Shared helpers live in their own modules:

- `Wrappers`: `Option` and `Result`.
- `Text`: JavaScript's `trim` with its exact white-space set, `split`, `includes`, ASCII case mapping, decimal digits, and code-point string order.
- `Sequences`: `filter`, `findIndex`, and subsequences.
- `StarWars`: the person and film records.

Some inputs enter the model as parameters:

- `new URL(...)` is a function `UrlParser` from a string to an optional protocol and path name.
- `JSON.parse` is a `JsonDecoder` that may fail.
- The clock readings `new Date().toISOString()` and `Date.now()` are arguments.
- The outcome of the network save is a `SaveAttempt` argument.

A dummy POST that resolves makes `onSave` return nothing; the modal closes and no person is stored (`StarWarsList.SaveReplyFor`, `StarWarsList.OnSave`).

## Model

| member | source | states |
|---|---|---|
| AddPersonRules.Put | app/models/AddPersonModal.tsx:59-60 | the edited field holds the typed text and every other field of the draft keeps its value |
| AddPersonRules.OwningStep | app/models/AddPersonModal.tsx:133-134 | every field belongs to one page: the required lists of pages 1 and 2 are exactly the fields owned by those pages |
| AddPersonRules.TrimAll | app/models/AddPersonModal.tsx:65-68 | one trimmed piece per comma piece, in the same order |
| AddPersonRules.ParseCommaList | app/models/AddPersonModal.tsx:65-69 | every token is non-empty, has no surrounding white space and holds no comma |
| AddPersonRules.ParseCommaListAppend | app/models/AddPersonModal.tsx:65-69 | the tokens of `a,b` are the tokens of `a` followed by those of `b`, so the left-to-right order is kept |
| AddPersonRules.TrimAllAppend | app/models/AddPersonModal.tsx:68 | trimming the pieces of two lists is trimming each list in turn |
| AddPersonRules.ParseCommaListSingle | app/models/AddPersonModal.tsx:65-69 | a text without commas gives its trimmed self as the one token, or no token when it is blank |
| AddPersonRules.ParseCommaListBlank | app/models/AddPersonModal.tsx:65-69 | a blank text gives no tokens |
| AddPersonRules.MatchesNumberCorrect | app/models/AddPersonModal.tsx:153-157 | the one-pass scan accepts exactly the strings of `^\d+(\.\d+)?$`: a digit run, optionally a dot and a digit run |
| AddPersonRules.MatchesNumberSound | app/models/AddPersonModal.tsx:153 | a string the scan accepts is in the pattern's language |
| AddPersonRules.MatchesNumberComplete | app/models/AddPersonModal.tsx:153 | every string in the pattern's language is accepted by the scan |
| AddPersonRules.UrlListError | app/models/AddPersonModal.tsx:92-104 | no error exactly when every token is a valid URL; otherwise the message names position i + 1, where i is the first invalid token |
| AddPersonRules.ValidateUrlList | app/models/AddPersonModal.tsx:98-103 | the loop with its early return yields the error of the first bad token, or none |
| AddPersonRules.TrailingDigits | app/models/AddPersonModal.tsx:127-130 | the count is exactly the maximal run of digits at the end of the text |
| AddPersonRules.ListField | app/models/AddPersonModal.tsx:194-226 | each of the four resource lists is a field owned by page 3 |
| AddPersonRules.MatchesResourcePathCorrect | app/models/AddPersonModal.tsx:126-131 | the scan from the end accepts a path exactly when `/\/<kind>\/\d+\/?$/i` matches it somewhere |
| AddPersonRules.MatchesResourcePathSound | app/models/AddPersonModal.tsx:126-131 | an accepted path has a match at the position the scan found |
| AddPersonRules.MatchesResourcePathComplete | app/models/AddPersonModal.tsx:126-131 | a path with a match at any position is accepted |
| AddPersonRules.FirstBlank | app/models/AddPersonModal.tsx:180 | none exactly when every listed field is filled; otherwise a listed field whose trimmed text is empty |
| AddPersonRules.FirstBlankIs | app/models/AddPersonModal.tsx:150-151 | a blank field with no blank field before it in the list is the one found |
| AddPersonRules.ResourceUrlCorrect | app/models/AddPersonModal.tsx:82-90 | `isValidResourceUrl` with a kind's pattern holds exactly for http(s) URLs whose path has a match of the kind's pattern |
| AddPersonRules.UrlListCorrect | app/models/AddPersonModal.tsx:92-104 | a list passes exactly when every token is a resource URL of the kind |
| AddPersonRules.LinkProblemCorrect | app/models/AddPersonModal.tsx:195-202 | one list check passes exactly when every token of the field is a URL of its kind, and a failure names that field |
| AddPersonRules.LinksProblemCorrect | app/models/AddPersonModal.tsx:194-227 | the page-3 checks pass exactly when all four lists hold only URLs of their kind; a failure names a page-3 field that fails its own check |
| AddPersonRules.NumberErrorCorrect | app/models/AddPersonModal.tsx:153-158 | with both filled in: no error exactly when height and mass are numbers; height is reported before mass |
| AddPersonRules.FilledMeasures | app/models/AddPersonModal.tsx:150-153 | once the page-1 fields are filled, height and mass are not blank, so their number checks always run |
| AddPersonRules.Step1ErrorCorrect | app/models/AddPersonModal.tsx:148-159 | `validateStep(1)` is null exactly when every page-1 field is filled and height and mass are numbers |
| AddPersonRules.Step2ErrorCorrect | app/models/AddPersonModal.tsx:160-165 | `validateStep(2)` is null exactly when every page-2 field is filled; otherwise it is "`<Label>` is required." for the first blank |
| AddPersonRules.ReadBackRequired | app/models/AddPersonModal.tsx:174-181 | a "… is required." message is attached to the first blank page-1 field |
| AddPersonRules.MassMessageLacksHeight | app/models/AddPersonModal.tsx:176-179 | the mass message is not mistaken for the height message |
| AddPersonRules.ReadBackHeight | app/models/AddPersonModal.tsx:176-177 | the height message is attached to the height field |
| AddPersonRules.ReadBackMass | app/models/AddPersonModal.tsx:178-179 | the mass message is attached to the mass field |
| AddPersonRules.Step1ErrorFieldCorrect | app/models/AddPersonModal.tsx:172-182 | every page-1 error is attached to a page-1 field that fails its own check |
| AddPersonRules.HeightBlamed | app/models/AddPersonModal.tsx:153-155 | a height that is not a number fails the height field's own check |
| AddPersonRules.MassBlamed | app/models/AddPersonModal.tsx:156-158 | a mass that is not a number fails the mass field's own check |
| AddPersonRules.HomeworldProblemCorrect | app/models/AddPersonModal.tsx:186-193 | with page 2 filled, the homeworld check passes exactly when it is an http(s) URL, and a failure names the homeworld |
| AddPersonRules.HomeworldFilled | app/models/AddPersonModal.tsx:134 | the homeworld is among the page-2 fields, so once page 2 is filled it is not blank |
| AddPersonRules.NextStep2Correct | app/models/AddPersonModal.tsx:168-193 | Next on page 2 passes exactly when page 2 is filled and the homeworld is an http(s) URL; a failure names a page-2 field that fails its own check |
| AddPersonRules.NextProblemCorrect | app/models/AddPersonModal.tsx:168-229 | on pages 1 to 3, Next passes exactly when the page's rule holds; a failure names a field of that page that fails its own check |
| AddPersonRules.SaveAcceptsExactly | app/models/AddPersonModal.tsx:231-296 | Save submits exactly when the rules of all three pages hold |
| AddPersonRules.SaveRejectionBlames | app/models/AddPersonModal.tsx:237-296 | a rejected Save names a failing field and jumps to the page that owns it; every earlier page's rule holds |
| AddPersonRules.SaveAgreesWithNext | app/models/AddPersonModal.tsx:168-296 | Save accepts a form exactly when Next would accept it on each of pages 1, 2 and 3 |
| AddPersonRules.BuildPerson | app/models/AddPersonModal.tsx:297-316 | each of the nine text fields is the trimmed input and each of the four lists is its comma-separated input split and cleaned; `created` and `edited` are the same instant; the url is the trimmed url, or `local://person-<ms>` when that is blank |
| AddPersonRules.FilledIsTrimmedText | app/models/AddPersonModal.tsx:300-308 | a filled field, trimmed, is non-empty text with no surrounding white space |
| AddPersonRules.LinksValid | app/models/AddPersonModal.tsx:309-312 | the tokens of a list that passes its check are trimmed resource URLs of the kind |
| AddPersonRules.BuiltListIsTokens | app/models/AddPersonModal.tsx:309-312 | each list of the record is the tokens of the form's list of that kind |
| AddPersonRules.BuiltTextValid | app/models/AddPersonModal.tsx:300-308 | with pages 1 and 2 filled, every text field of the record is non-empty and trimmed |
| AddPersonRules.BuiltLinksValid | app/models/AddPersonModal.tsx:308-312 | with a valid homeworld and page 3 passing, the homeworld and every list entry of the record are valid links of their kind |
| AddPersonRules.ValidFormBuildsValidPerson | app/models/AddPersonModal.tsx:297-316 | a form meeting all three pages' rules builds a record with trimmed text, numeric height and mass, valid links and a url |
| AddPersonRules.AcceptedFormBuildsValidPerson | app/models/AddPersonModal.tsx:231-316 | every record Save hands to `onSave` is such a valid record |
| AddPersonModal.AddPersonWizard.constructor | app/models/AddPersonModal.tsx:44-48 | the wizard starts on page 1 with the empty form, no error, and not saving |
| AddPersonModal.AddPersonWizard.OnVisibilityChange | app/models/AddPersonModal.tsx:50-57 | hiding the modal resets the page, form and error slot; showing it changes nothing |
| AddPersonModal.AddPersonWizard.Update | app/models/AddPersonModal.tsx:59-63 | only the edited field changes; a non-empty error message and the error field are dismissed |
| AddPersonModal.AddPersonWizard.FindBlank | app/models/AddPersonModal.tsx:150-151 | the loop finds the first blank field of the list |
| AddPersonModal.AddPersonWizard.ValidateStep | app/models/AddPersonModal.tsx:148-166 | the method returns `validateStep`'s result for the current form |
| AddPersonModal.AddPersonWizard.Step1Key | app/models/AddPersonModal.tsx:175-181 | the field a page-1 message is attached to |
| AddPersonModal.AddPersonWizard.CheckLink | app/models/AddPersonModal.tsx:195-202 | one list block's result |
| AddPersonModal.AddPersonWizard.CheckLinks | app/models/AddPersonModal.tsx:194-227 | the four list blocks in order; the first failure wins |
| AddPersonModal.AddPersonWizard.CheckHomeworld | app/models/AddPersonModal.tsx:186-193 | the homeworld block's result |
| AddPersonModal.AddPersonWizard.NextCheck | app/models/AddPersonModal.tsx:171-227 | the checks Next runs on the current page, and the field each report is attached to |
| AddPersonModal.AddPersonWizard.HandleNext | app/models/AddPersonModal.tsx:168-229 | the page advances by exactly one when its rule holds; otherwise the page stays and the error names a field of this page that fails its own check; the form is kept |
| AddPersonModal.AddPersonWizard.Advance | app/models/AddPersonModal.tsx:228 | the next page is shown and the error slot is clear |
| AddPersonModal.AddPersonWizard.Back | app/models/AddPersonModal.tsx:434-449 | offered only after page 1; it goes back one page and clears both error fields |
| AddPersonModal.AddPersonWizard.SaveCheck | app/models/AddPersonModal.tsx:232-296 | the checks in the order pages 1 and 2, homeworld, films, species, vehicles, starships; the page a failure jumps to is 1, 2 or 3 |
| AddPersonModal.AddPersonWizard.HandleSave | app/models/AddPersonModal.tsx:231-316 | on failure nothing is submitted, the error names a field that fails its own check, and the page becomes that field's page; on success the valid record is submitted and `saving` is set |
| AddPersonModal.AddPersonWizard.Report | app/models/AddPersonModal.tsx:238-258 | the problem fills the error slot and the page moves when a jump is given |
| AddPersonModal.AddPersonWizard.StartSaving | app/models/AddPersonModal.tsx:297 | the save is pending and the error slot is clear |
| AddPersonModal.AddPersonWizard.SettleSave | app/models/AddPersonModal.tsx:317-328 | a `{success:false}` reply shows its error, a throw shows the generic message, anything else closes the modal; `saving` ends false in every case |
| StarWarsPeople.ParsePeopleResponse | app/hooks/useStarWarsPeople.ts:22-32 | accepted exactly when the (decoded) value is an object whose `results` is an array, and then it is that envelope; a failing decode passes its error through, a `null` or `undefined` body keeps the `TypeError`'s message, and every other rejection, including a non-object body, is "Invalid people API response" |
| StarWarsPeople.PlainPageRoundTrip | app/hooks/useStarWarsPeople.ts:22-30 | a page passed through as it is comes back unchanged |
| StarWarsPeople.EncodedAgreesWithPlain | app/hooks/useStarWarsPeople.ts:24-27 | a `data` string that decodes to an envelope is read exactly as that envelope sent directly |
| StarWarsPeople.RequestedPage | app/hooks/useStarWarsPeople.ts:55 | the requested page is the page parameter, or 1 when there is none |
| StarWarsPeople.PageQuery | app/hooks/useStarWarsPeople.ts:52-62 | the response is parsed; a thrown `Error` keeps its message and anything else thrown becomes "Failed to load characters." |
| StarWarsPeople.FindPageParam | app/hooks/useStarWarsPeople.ts:36 | the leftmost position where `[?&]page=\d` matches, or none when it matches nowhere |
| StarWarsPeople.PageDigits | app/hooks/useStarWarsPeople.ts:36-37 | the captured group is a non-empty run of digits |
| StarWarsPeople.GetPageFromNext | app/hooks/useStarWarsPeople.ts:34-38 | undefined for a missing or empty link and for a link without a match; otherwise the decimal value of the digits at the leftmost match |
| StarWarsPeople.PageCursorRoundTrip | app/hooks/useStarWarsPeople.ts:34-38 | a link `<base>?page=<n>` whose base has no `?` or `&` reads back as n |
| StarWarsPeople.FindPageParamIs | app/hooks/useStarWarsPeople.ts:36 | a match with no match before it is the one found |
| StarWarsPeople.DigitRunToEnd | app/hooks/useStarWarsPeople.ts:36 | `\d+` takes a digit run that reaches the end of the link whole |
| StarWarsPeople.NextPageParam | app/hooks/useStarWarsPeople.ts:64 | undefined whenever the last page has no `next` link |
| StarWarsPeople.NextPageParamIsCursor | app/hooks/useStarWarsPeople.ts:64 | the guard changes nothing: the next page parameter is the page number read from `next` |
| StarWarsPeople.Flatten | app/hooks/useStarWarsPeople.ts:72 | no pages give no people |
| StarWarsPeople.ApiPeople | app/hooks/useStarWarsPeople.ts:71-74 | no people before the first page arrives; afterwards, the people of all the pages |
| StarWarsPeople.FlattenAppend | app/hooks/useStarWarsPeople.ts:72 | loading more pages appends their people after the people already shown |
| StarWarsPeople.FlattenLength | app/hooks/useStarWarsPeople.ts:72 | the list holds as many people as all the pages' results together |
| StarWarsPeople.FlattenMembership | app/hooks/useStarWarsPeople.ts:72 | a person is listed exactly when some page holds it |
| Films.FilmQueries | app/hooks/useFilms.ts:7-13 | one query per URL, in the order of the URLs |
| Films.SameKeyIffSameUrl | app/hooks/useFilms.ts:9 | two queries share a cache key exactly when their URLs are equal |
| Films.FilmKeyAt | app/hooks/useFilms.ts:9 | the query for the i-th URL has the key `["film", url]` |
| Films.LoadedFilms | app/hooks/useFilms.ts:15-17 | there are never more films than results |
| Films.LoadedFilmsAppend | app/hooks/useFilms.ts:16 | the films of two runs of results are those of the first run, then those of the second |
| Films.LoadedFilmsMembership | app/hooks/useFilms.ts:16 | a film is listed exactly when some result holds it as data |
| Films.LoadedFilmsAreFilteredData | app/hooks/useFilms.ts:15-17 | the films are the data of the results that have some, one for one and in the order of the URLs |
| Films.AllLoadedShowsAll | app/hooks/useFilms.ts:15-17 | when every result has data, the films are exactly that data, in the order of the URLs |
| Films.AnyLoading | app/hooks/useFilms.ts:19 | loading exactly when some result is loading |
| Films.FirstError | app/hooks/useFilms.ts:20 | absent exactly when no result has an error; otherwise the error of the first result that has one |
| AddedPeople.Prepend | app/redux/addedPeopleSlice.ts:16-18 | the new person is first, the length grows by one, and the previous list follows unchanged |
| AddedPeople.AddAll | app/redux/addedPeopleSlice.ts:16-18 | adding people one by one grows the list by their number, and the list is then the added people in reverse order, ahead of the earlier list |
| AddedPeople.NewestFirst | app/redux/addedPeopleSlice.ts:17 | the most recently added person is first |
| AddedPeople.AddedPeopleStore.constructor | app/redux/addedPeopleSlice.ts:8-10 | the store starts with an empty list |
| AddedPeople.AddedPeopleStore.AddPerson | app/redux/addedPeopleSlice.ts:16-18 | the list becomes the person in front of the old list |
| StarWarsList.GenderChipLabel | app/screens/StarWarsList.tsx:33-37 | "All" for the empty option and "N/A" for "n/a"; otherwise the first character upper case and the rest lower case, with the length kept |
| StarWarsList.LowerOfCapitalize | app/screens/StarWarsList.tsx:36 | capitalising and then lower-casing is just lower-casing |
| StarWarsList.ChipLabelNamesOption | app/screens/StarWarsList.tsx:33-37 | every chip but "All" reads as its own lower-case option when case is ignored |
| StarWarsList.People | app/screens/StarWarsList.tsx:64-67 | the added people, then the API people, and nothing else |
| StarWarsList.LocalBeforeRemote | app/screens/StarWarsList.tsx:64-67 | every locally added person is listed before every API person, each in its own order |
| StarWarsList.NothingLoadedShowsAdded | app/screens/StarWarsList.tsx:65 | before any page arrives, the list is the added people |
| StarWarsList.Insert | app/screens/StarWarsList.tsx:71-72 | inserting into a strictly sorted list keeps it strictly sorted and adds exactly that element |
| StarWarsList.InsertFront | app/screens/StarWarsList.tsx:72 | an element below the head can go in front of a sorted list |
| StarWarsList.SortedCons | app/screens/StarWarsList.tsx:72 | an element below every element can go in front of a sorted list |
| StarWarsList.SortedDistinct | app/screens/StarWarsList.tsx:71-72 | `Array.from(new Set(xs)).sort()` is strictly sorted and holds exactly the elements of xs |
| StarWarsList.StrictlySortedUnique | app/screens/StarWarsList.tsx:72 | two strictly sorted lists with the same elements are equal, so the options do not depend on the order of the people |
| StarWarsList.LowerGenders | app/screens/StarWarsList.tsx:71 | one lower-case gender per person, in order |
| StarWarsList.GenderOptionsCorrect | app/screens/StarWarsList.tsx:70-74 | the options start with "" and the rest are strictly sorted, never empty, and exactly the lower-case genders that occur |
| StarWarsList.GenderOptionsDistinct | app/screens/StarWarsList.tsx:70-74 | no option appears twice |
| StarWarsList.FilteredIsOneFilter | app/screens/StarWarsList.tsx:76-89 | the two filters applied in turn are one filter by the combined condition |
| StarWarsList.SearchAndGender | app/screens/StarWarsList.tsx:78-87 | with a search and a gender, the list is the people matching both |
| StarWarsList.SearchOnly | app/screens/StarWarsList.tsx:78-82 | with only a search, the list is the people whose lower-case name contains the lower-case, untrimmed search |
| StarWarsList.GenderOnly | app/screens/StarWarsList.tsx:83-87 | with only a gender, the list is the people whose gender matches it when case is ignored |
| StarWarsList.FilteredIsSubsequence | app/screens/StarWarsList.tsx:76-89 | the filtered list is an order-preserving subsequence of the people |
| StarWarsList.FilteredMembership | app/screens/StarWarsList.tsx:76-89 | a person is shown exactly when listed and matching both active filters |
| StarWarsList.NoFilterShowsAll | app/screens/StarWarsList.tsx:76-89 | with a blank search and no gender, every person is shown |
| StarWarsList.PageFeed.constructor | app/screens/StarWarsList.tsx:43-52 | nothing is being fetched, no request has been made, and the first closure sees the query's flags |
| StarWarsList.PageFeed.Render | app/screens/StarWarsList.tsx:131-133 | a re-render rebuilds the callback over the current `hasNextPage` and `isFetchingNextPage` (its dependency list) and changes nothing else |
| StarWarsList.PageFeed.HandleEndReached | app/screens/StarWarsList.tsx:131-133 | a next-page request is made exactly when the flags the closure captured at the last render say there is a next page and none is being fetched, and the feed is then fetching; otherwise nothing changes |
| StarWarsList.PageFeed.EndReachedRenderedBetween | app/screens/StarWarsList.tsx:131-133 | two end-of-list events with a render between them make at most one request |
| StarWarsList.PageFeed.EndReachedTwiceUnrendered | app/screens/StarWarsList.tsx:131-133 | two end-of-list events on the same closure make two requests when it lets one through, and none otherwise |
| StarWarsList.PageFeed.FetchNextPage | app/screens/StarWarsList.tsx:132 | one request is made and becomes the pending one, restarting any request already pending; the feed is then fetching |
| StarWarsList.PageFeed.PageSettled | app/hooks/useStarWarsPeople.ts:64 | the fetch is over and whether there is a next page now comes from the page that arrived |
| StarWarsList.MessageOr | app/screens/StarWarsList.tsx:147 | the error's message when it is not empty, else the fallback |
| StarWarsList.ScreenFor | app/screens/StarWarsList.tsx:135-205 | a spinner while the first load runs; the full-screen error exactly when an error exists and no one is listed; otherwise the list with the page spinner, the inline retry (an error with people listed and no fetch running) or "Loaded all"; the error's message is shown when it is not empty, else "Something went wrong. Please try again." on the error screen and "Couldn’t load more." in the footer |
| StarWarsList.SaveReplyFor | app/screens/StarWarsList.tsx:299-318 | success exactly when the save resolves or throws a 4xx status; any other throw fails with its message, or with "Failed to save. Please check your connection and try again." when the message is missing or empty |
| StarWarsList.OnSave | app/screens/StarWarsList.tsx:299-318 | the person is put first in the store exactly when the save threw a 4xx status; otherwise the store is unchanged |
| StarWarsList.DummySaveIsStored | app/services/https-service.ts:109-113 | the dummy POST's thrown 404 counts as success, so the person is stored |
| PersonListItem.FormatGender | app/components/PersonListItem.tsx:17-20 | "n/a" is kept; otherwise the first character upper case and the rest lower case; "" stays ""; the length is kept |
| PersonListItem.FormatGenderIdempotent | app/components/PersonListItem.tsx:17-20 | formatting twice is formatting once |
| PersonListItem.MetaLine | app/components/PersonListItem.tsx:37 | the formatted gender, then " · ", then the birth year |
| StarWarsDetail.FormatLabel | app/screens/StarWarsDetail.tsx:23-26 | "N/A" for "" and "n/a"; otherwise the first character upper case and the rest lower case |
| StarWarsDetail.FormatLabelAgreesWithList | app/screens/StarWarsDetail.tsx:23-26 | it formats like the list item, except that "n/a" becomes "N/A" |
| StarWarsDetail.ErrorMessage | app/screens/StarWarsDetail.tsx:28-39 | an `Error`'s message, an object's string `message`, or "Something went wrong." for anything else |
| StarWarsDetail.DetailRows | app/screens/StarWarsDetail.tsx:96-103 | at most eight rows, and every shown value is non-empty |
| StarWarsDetail.DetailRowsExactly | app/screens/StarWarsDetail.tsx:41-49 | a labelled value is shown exactly when it is one of the eight rows and is not empty |
| StarWarsDetail.BirthYearRow | app/screens/StarWarsDetail.tsx:97 | the birth-year row appears exactly when the birth year is set |
| StarWarsDetail.HeroMeta | app/screens/StarWarsDetail.tsx:85-91 | the hero line is absent exactly when both gender and birth year are empty |
| StarWarsDetail.HeroMetaParts | app/screens/StarWarsDetail.tsx:87-89 | the formatted gender and birth year that are set, with the line-89 separator only when both are |
| StarWarsDetail.FilmsPanelFor | app/screens/StarWarsDetail.tsx:106-129 | no panel without films; then, in precedence order, a spinner while any is loading, the first error's message, or the loaded films |
| StarWarsDetail.AllFilmsListed | app/screens/StarWarsDetail.tsx:106-129 | when every film has loaded without error, the panel lists them all in order |
| Text.TrimEmptyIffBlank | app/models/AddPersonModal.tsx:151 | `!s.trim()` holds exactly when every character is white space |
| Text.TrimIdempotent | app/models/AddPersonModal.tsx:300-308 | trimming twice is trimming once |
| Text.JoinSplit | app/models/AddPersonModal.tsx:67 | splitting on a separator loses nothing: the pieces joined by it are the text |
| Sequences.FilterIsSubsequence | app/screens/StarWarsList.tsx:79-86 | `filter` keeps an order-preserving subsequence |
| Sequences.FilterMembership | app/screens/StarWarsList.tsx:79-86 | an element survives `filter` exactly when it is present and passes the test |

## Left out

- Case mapping is ASCII only. JavaScript's `toLowerCase` and `toUpperCase` also map letters outside ASCII, and `FormatGender`, `FormatLabel`, `GenderChipLabel` and the filters agree with the app only on ASCII input. Under the `i` flag, the URL patterns never map other letters to ASCII, so for them the model is exact.
- Strings are sequences of code points. JavaScript `sort` compares UTF-16 code units, so `SortedDistinct` may order text outside the Basic Multilingual Plane differently.
- `new URL(...)` is the parameter `UrlParser`. The WHATWG URL parser is not part of this model, only the protocol and path name it yields.
- `JSON.parse` is the parameter `JsonDecoder`. JSON decoding is not part of this model.
- `GetPageFromNext` uses an unbounded decimal value, so the precision loss of `parseInt` on numbers over 2^53 is not modelled.
- react-query is not modelled: retry count, caching, `staleTime`, refetch, `refetchAll` and the `isOnline` gate. `ScreenFor` takes `isLoading`, `error`, `hasNextPage` and `isFetchingNextPage` as inputs. `PageFeed` holds the query's `hasNextPage` and `isFetchingNextPage` and the copies the `handleEndReached` closure captured at the last render. A new `fetchNextPage` restarts a pending one and counts as a new request.
- FlatList's own `onEndReached` throttling is not modelled. FlatList fires the event at most once per content length, which in the app usually keeps a second event from reaching the same closure. `PageFeed.EndReachedTwiceUnrendered` shows what the callback alone does without it.
- The NetInfo subscription, redux-persist storage, the provider tree, navigation, `Alert.alert`, and all JSX and styling are not modelled.
- The axios wrapper in `app/services/https-service.ts` is not modelled. The only fact kept is that the dummy POST throws status 404 (`DummyAttempt`).
- The `async` ordering of `handleSave` is coarser than the code. It becomes two methods: `HandleSave` up to the `await`, then `SettleSave` with the reply. Events that arrive while a save is pending are not interleaved.
- Thrown save errors appear only as an optional status and an optional message (`SaveAttempt`), and film errors as `ErrorValue`. The model does not carry an error's other properties.
- `validateSingleUrl` (app/models/AddPersonModal.tsx:106-116) is never called, so it is not modelled.
- The species, vehicles and starships count panels of the detail screen, the "No character data." screen, the "No results found." list placeholder and the header's character count are plain rendering and are not modelled.
- The Next, Back and Save handlers require the page where the component shows their button. The buttons are rendered conditionally (app/models/AddPersonModal.tsx:434-466), so those requires are conditions on the display, not checks the code makes.
- The clock reads `new Date().toISOString()` and `Date.now()` are parameters of `BuildPerson` and `HandleSave`.
- The JavaScript engine's wording of the `TypeError` raised for a `null` or `undefined` response body is not modelled; it is the `typeError` field of `RawResponse.Nullish`.
