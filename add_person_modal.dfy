/**
 * The add-character wizard of `AddPersonModal`: the component state (step, draft form,
 * the single error slot and the saving flag) and the handlers that change it.
 * The checks themselves are the functions of `AddPersonRules`; each handler here runs
 * them step by step as the component does and is proved to agree with them.
 */
module AddPersonModal {
  import opened Wrappers
  import opened Text
  import opened StarWars
  import opened AddPersonRules

  /** How the awaited `onSave(person)` settled. */
  datatype SaveReply =
    | Completed              // resolved with nothing, or with anything but `{success: false}`
    | Failed(error: string)  // resolved with `{success: false, error}`
    | Threw                  // rejected

  const GenericSaveError := "Something went wrong. Please try again."

  class AddPersonWizard {
    var step: int
    var form: Form
    var errorMessage: Option<string>
    var errorField: Option<Field>
    var saving: bool

    /** The step is one of the four pages. */
    predicate Valid()
      reads this
    {
      1 <= step <= TotalSteps
    }

    /** The footer shows Next before the last page. */
    predicate NextOffered()
      reads this
    {
      step < TotalSteps
    }

    /** The footer shows Back after the first page. */
    predicate BackOffered()
      reads this
    {
      step > 1
    }

    /** On the last page the footer shows Save, disabled while a save is pending. */
    predicate SaveOffered()
      reads this
    {
      step >= TotalSteps && !saving
    }

    /** The initial state: page 1, the empty form, no error, not saving. */
    constructor ()
      ensures Valid()
      ensures step == 1 && form == EmptyForm
      ensures errorMessage == None && errorField == None && !saving
    {
      step := 1;
      form := EmptyForm;
      errorMessage := None;
      errorField := None;
      saving := false;
    }

    /** The effect on `visible`: hiding the modal resets page, form and error; showing it changes nothing. */
    method OnVisibilityChange(visible: bool)
      requires Valid()
      modifies this
      ensures Valid()
      ensures saving == old(saving)
      ensures !visible ==> step == 1 && form == EmptyForm && errorMessage == None && errorField == None
      ensures visible ==>
        (step == old(step) && form == old(form) && errorMessage == old(errorMessage) && errorField == old(errorField))
    {
      if !visible {
        step := 1;
        form := EmptyForm;
        errorMessage := None;
        errorField := None;
      }
    }

    /** `update(k)(v)`: store the typed text; a shown error (non-empty message, any field) is dismissed. */
    method Update(k: Field, v: string)
      requires Valid()
      modifies this
      ensures Valid()
      ensures form == Put(old(form), k, v)
      ensures At(form, k) == v
      ensures forall j :: j != k ==> At(form, j) == At(old(form), j)
      ensures step == old(step) && saving == old(saving)
      ensures errorMessage == (if old(errorMessage) == Some("") then Some("") else None)
      ensures errorField == None
    {
      form := Put(form, k, v);
      if errorMessage.Some? && errorMessage.value != "" {
        errorMessage := None;
      }
      if errorField.Some? {
        errorField := None;
      }
    }

    /** `keys.find((k) => !form[k].trim())` */
    method FindBlank(keys: seq<Field>) returns (r: Option<Field>)
      ensures r == FirstBlank(form, keys)
    {
      for i := 0 to |keys|
        invariant forall j :: 0 <= j < i ==> !IsBlankField(form, keys[j])
      {
        if Trim(At(form, keys[i])) == "" {
          FirstBlankIs(form, keys, i);
          return Some(keys[i]);
        }
      }
      return None;
    }

    /** `validateStep(s)`: the first blank required field, then (step 1) the height and mass patterns. */
    method ValidateStep(s: int) returns (err: Option<string>)
      ensures err == StepError(form, s)
    {
      if s == 1 {
        var blank := FindBlank(RequiredStep1);
        if blank.Some? {
          return Some(RequiredMessage(blank.value));
        }
        var h := Trim(form.height);
        if h != "" && !MatchesNumber(h) {
          return Some(HeightNumberMessage);
        }
        var m := Trim(form.mass);
        if m != "" && !MatchesNumber(m) {
          return Some(MassNumberMessage);
        }
        return None;
      }
      if s == 2 {
        var blank := FindBlank(RequiredStep2);
        if blank.Some? {
          return Some(RequiredMessage(blank.value));
        }
      }
      return None;
    }

    /** The field a step-1 message is attached to: height, mass, or the first blank field. */
    method Step1Key(err: string) returns (key: Option<Field>)
      ensures key == Step1ErrorField(form, err)
    {
      if Contains(err, "Height must be a number") {
        key := Some(Height);
      } else if Contains(err, "Mass must be a number") {
        key := Some(Mass);
      } else {
        key := FindBlank(RequiredStep1);
      }
    }

    /** One `if (form[list].trim()) validateUrlList(parseCommaList(form[list]), …)` block. */
    method CheckLink(parse: UrlParser, kind: ResourceKind) returns (p: Option<Problem>)
      ensures p == LinkProblem(form, parse, kind)
    {
      var raw := At(form, ListField(kind));
      if Trim(raw) != "" {
        var e := ValidateUrlList(ParseCommaList(raw), parse, PathPattern(kind), Example(kind), Noun(kind));
        if e.Some? {
          return Some(Problem(e.value, Some(ListField(kind))));
        }
      }
      return None;
    }

    /** The four list blocks in their order; the first failure wins. */
    method CheckLinks(parse: UrlParser) returns (p: Option<Problem>)
      ensures p == LinksProblem(form, parse)
    {
      p := CheckLink(parse, FilmKind);
      if p.Some? { return; }
      p := CheckLink(parse, SpeciesKind);
      if p.Some? { return; }
      p := CheckLink(parse, VehicleKind);
      if p.Some? { return; }
      p := CheckLink(parse, StarshipKind);
    }

    /** `validateHomeworldUrl(form.homeworld.trim())`, made only when the homeworld is not blank. */
    method CheckHomeworld(parse: UrlParser) returns (p: Option<Problem>)
      ensures p == HomeworldProblem(form, parse)
    {
      var h := Trim(form.homeworld);
      if h != "" && !IsValidAnyUrl(parse, h) {
        return Some(Problem(HomeworldMessage, Some(Homeworld)));
      }
      return None;
    }

    /**
     * The checks of `handleNext` on the current page: the page's `validateStep` with the
     * field its message is attached to, then the homeworld link (page 2) or the lists (page 3).
     */
    method NextCheck(parse: UrlParser) returns (p: Option<Problem>)
      ensures p == NextProblem(form, step, parse)
    {
      var err := ValidateStep(step);
      if err.Some? {
        var key := None;
        if step == 1 {
          key := Step1Key(err.value);
        }
        if step == 2 {
          key := FindBlank(RequiredStep2);
        }
        return Some(Problem(err.value, key));
      }
      if step == 2 {
        p := CheckHomeworld(parse);
        if p.Some? { return; }
      }
      if step == 3 {
        p := CheckLinks(parse);
        if p.Some? { return; }
      }
      return None;
    }

    /**
     * `handleNext`: the error slot is cleared and the current page checked; either the
     * next page is shown or the first problem is reported and the page stays.
     */
    method HandleNext(parse: UrlParser)
      requires Valid() && NextOffered()
      modifies this
      ensures Valid()
      ensures unchanged(this`form, this`saving)
      ensures NextProblem(old(form), old(step), parse).None? ==>
        step == old(step) + 1 && errorMessage == None && errorField == None
      ensures NextProblem(old(form), old(step), parse).Some? ==>
        var p := NextProblem(old(form), old(step), parse).value;
        step == old(step) && errorMessage == Some(p.message) && errorField == p.field
      ensures step == old(step) + 1 <==> StepHolds(form, old(step), parse)
      ensures step == old(step) ==>
        errorField.Some? && OwningStep(errorField.value) == step && FailsOwnCheck(form, errorField.value, parse)
    {
      var p := NextCheck(parse);
      NextProblemCorrect(form, step, parse);
      if p.Some? {
        Report(p.value, None);
        return;
      }
      Advance();
    }

    /** The page's checks passed: the error slot is clear and the next page is shown. */
    method Advance()
      requires Valid() && NextOffered()
      modifies this
      ensures Valid()
      ensures step == old(step) + 1 && errorMessage == None && errorField == None
      ensures unchanged(this`form, this`saving)
    {
      errorMessage := None;
      errorField := None;
      step := step + 1;
    }

    /** The Back button: the error slot is cleared and the previous page shown. */
    method Back()
      requires Valid() && BackOffered()
      modifies this
      ensures Valid()
      ensures step == old(step) - 1
      ensures errorMessage == None && errorField == None
      ensures unchanged(this`form, this`saving)
    {
      errorMessage := None;
      errorField := None;
      step := step - 1;
    }

    /**
     * The checks of `handleSave` in their order: steps 1 and 2, the homeworld link, the
     * four lists; a failure names its field and the step to move to.
     */
    method SaveCheck(parse: UrlParser) returns (r: Option<Rejection>)
      ensures r == SaveRejection(form, parse)
      ensures r.Some? && r.value.jumpTo.Some? ==> 1 <= r.value.jumpTo.value <= 3
    {
      var err1 := ValidateStep(1);
      var err2 := ValidateStep(2);
      var err := err1.OrElse(err2);
      if err.Some? {
        var key1 := Step1Key(err.value);
        var key2 := FindBlank(RequiredStep2);
        var jump := if key1.Some? then Some(1) else if key2.Some? then Some(2) else None;
        return Some(Rejection(Problem(err.value, key1.OrElse(key2)), jump));
      }
      var p := CheckHomeworld(parse);
      if p.Some? {
        return Some(Rejection(p.value, Some(2)));
      }
      p := CheckLinks(parse);
      if p.Some? {
        return Some(Rejection(p.value, Some(3)));
      }
      return None;
    }

    /**
     * `handleSave` up to its `await`: the error slot is cleared and every step checked again.
     * The first failure is reported and the page moves to the step that owns it; otherwise
     * `saving` is set and the record built for `onSave` is returned.
     * `now` is `new Date().toISOString()` and `nowMs` is `Date.now()`.
     */
    method HandleSave(parse: UrlParser, now: string, nowMs: nat) returns (submitted: Option<Person>)
      requires Valid() && SaveOffered()
      modifies this
      ensures Valid()
      ensures unchanged(this`form)
      ensures SaveRejection(form, parse).Some? ==>
        var r := SaveRejection(form, parse).value;
        submitted == None && !saving
        && errorMessage == Some(r.problem.message) && errorField == r.problem.field
        && step == (if r.jumpTo.Some? then r.jumpTo.value else old(step))
      ensures SaveRejection(form, parse).None? ==>
        submitted == Some(BuildPerson(form, now, nowMs)) && saving
        && errorMessage == None && errorField == None && step == old(step)
      ensures submitted.Some? <==> Step1Holds(form) && Step2Holds(form, parse) && Step3Holds(form, parse)
      ensures submitted.Some? ==> SubmittedPersonValid(submitted.value, parse)
      ensures submitted.None? ==>
        errorField.Some? && FailsOwnCheck(form, errorField.value, parse) && step == OwningStep(errorField.value)
    {
      var r := SaveCheck(parse);
      SaveAcceptsExactly(form, parse);
      if r.Some? {
        SaveRejectionBlames(form, parse);
        Report(r.value.problem, r.value.jumpTo);
        return None;
      }
      AcceptedFormBuildsValidPerson(form, parse, now, nowMs);
      var person := BuildPerson(form, now, nowMs);
      StartSaving();
      return Some(person);
    }

    /** Show `p` in the error slot and, when `jump` says so, move to that page. */
    method Report(p: Problem, jump: Option<int>)
      requires Valid()
      requires jump.Some? ==> 1 <= jump.value <= TotalSteps
      modifies this
      ensures Valid()
      ensures errorMessage == Some(p.message) && errorField == p.field
      ensures step == (if jump.Some? then jump.value else old(step))
      ensures unchanged(this`form, this`saving)
    {
      errorMessage := Some(p.message);
      errorField := p.field;
      if jump.Some? {
        step := jump.value;
      }
    }

    /** A submission passed every check: the error slot is clear and the save is pending. */
    method StartSaving()
      requires Valid()
      modifies this
      ensures Valid()
      ensures errorMessage == None && errorField == None && saving
      ensures unchanged(this`form, this`step)
    {
      errorMessage := None;
      errorField := None;
      saving := true;
    }

    /**
     * `handleSave` after its `await`: a `{success: false}` reply shows its error, a throw
     * shows the generic message, anything else closes the modal; `saving` is cleared in
     * every case. `close` says whether `onClose` is called.
     */
    method SettleSave(reply: SaveReply) returns (close: bool)
      requires Valid()
      modifies this
      ensures Valid()
      ensures !saving
      ensures close <==> reply.Completed?
      ensures unchanged(this`step, this`form, this`errorField)
      ensures reply.Failed? ==> errorMessage == Some(reply.error)
      ensures reply.Threw? ==> errorMessage == Some(GenericSaveError)
      ensures reply.Completed? ==> errorMessage == old(errorMessage)
    {
      close := false;
      match reply {
        case Failed(error) =>
          errorMessage := Some(error);
        case Threw =>
          errorMessage := Some(GenericSaveError);
        case Completed =>
          close := true;
      }
      saving := false;
    }
  }
}
