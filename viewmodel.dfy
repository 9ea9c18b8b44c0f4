/**
 * CowListViewModel: validation of the edit forms before anything is written, and the two flags the
 * screen observes, an error message and an operation-success flag. Dates arrive as text in the
 * pattern dd.MM.yyyy; parsing is a parameter `parse` that either yields a date or fails.
 */
module ViewModel {
  import opened Records
  import Tables
  import Queries
  import Daos
  import Repository

  /** The error messages the view model shows, one per distinct text. */
  datatype Message =
    | MissingFields               // "Please fill all required fields."
    | InvalidDateFormat           // "Invalid date format. Please use DD.MM.YYYY."
    | DuplicateBirthDate          // "A birth on this date has already been recorded for this cow."
    | SireNotFound(earTag: string)
    | SireNotMale(earTag: string)
    | Unexpected                  // "An unexpected error occurred: ..."

  /** Kotlin's `Char.isWhitespace`: the Java whitespace characters and the Unicode space separators. */
  predicate IsWhitespace(ch: char) {
    || ch == '\t' || ch == '\n' || ch == '\U{000B}' || ch == '\U{000C}' || ch == '\r'
    || ('\U{001C}' <= ch <= '\U{001F}')
    || ch == ' ' || ch == '\U{00A0}' || ch == '\U{1680}' || ('\U{2000}' <= ch <= '\U{200A}')
    || ch == '\U{2028}' || ch == '\U{2029}' || ch == '\U{202F}' || ch == '\U{205F}' || ch == '\U{3000}'
  }

  /** `isBlank`: empty or whitespace only. */
  predicate IsBlank(s: string) {
    forall i :: 0 <= i < |s| ==> IsWhitespace(s[i])
  }

  predicate IsNullOrBlank(s: Option<string>) {
    s.None? || IsBlank(s.value)
  }

  /** The required-field check shared by addCow and updateCow. */
  predicate RequiredFieldsPresent(earTag: string, breed: Option<Breed>, birthDate: string, entryDate: string,
                                  sex: Option<Sex>, category: Option<Category>) {
    breed.Some? && sex.Some? && category.Some? && !IsBlank(earTag) && !IsBlank(birthDate) && !IsBlank(entryDate)
  }

  /** The three dates of a cow form once parsed; a blank exit date is no exit date. */
  datatype FormDates = FormDates(birthDate: Date, entryDate: Date, exitDate: Option<Date>)

  /** The parsed dates, or None when any date that is parsed fails (a DateTimeParseException). */
  function ParseDates(parse: string -> Option<Date>, birthDate: string, entryDate: string, exitDate: string)
    : (r: Option<FormDates>)
    ensures r.Some? <==> parse(birthDate).Some? && parse(entryDate).Some? && (!IsBlank(exitDate) ==> parse(exitDate).Some?)
    ensures r.Some? ==> r.value.birthDate == parse(birthDate).value && r.value.entryDate == parse(entryDate).value
    ensures r.Some? ==> (r.value.exitDate.None? <==> IsBlank(exitDate))
    ensures r.Some? && !IsBlank(exitDate) ==> r.value.exitDate == parse(exitDate)
  {
    var b := parse(birthDate);
    var e := parse(entryDate);
    var x := if IsBlank(exitDate) then Some(None) else if parse(exitDate).Some? then Some(parse(exitDate)) else None;
    if b.Some? && e.Some? && x.Some? then Some(FormDates(b.value, e.value, x.value)) else None
  }

  /** `originalCow.copy(...)` in updateCow: the seven edited fields replaced, id and both references kept. */
  function Edited(original: Cow, earTag: string, breed: Breed, dates: FormDates, sex: Sex, category: Category)
    : (r: Cow)
    ensures r.id == original.id && r.motherId == original.motherId && r.birthId == original.birthId
    ensures r.earTag == earTag && r.breed == breed && r.sex == sex && r.category == category
    ensures r.birthDate == dates.birthDate && r.entryDate == dates.entryDate && r.exitDate == dates.exitDate
  {
    original.(earTag := earTag, breed := breed, birthDate := dates.birthDate, entryDate := dates.entryDate,
              exitDate := dates.exitDate, sex := sex, category := category)
  }

  /** The mother already has a birth recorded on that date. */
  predicate HasBirthOn(db: Tables.Db, motherId: int, date: Date) {
    exists k :: k in db.births && db.births[k].motherId == motherId && db.births[k].date == date
  }

  /** addBirth's check over the mother's births-with-calves finds a duplicate exactly when one is stored. */
  lemma DuplicateBirthIff(db: Tables.Db, motherId: int, date: Date)
    ensures (exists bw :: bw in Queries.BirthsWithCalves(db, motherId) && bw.birth.date == date)
            <==> HasBirthOn(db, motherId, date)
  {
    if HasBirthOn(db, motherId, date) {
      var k :| k in db.births && db.births[k].motherId == motherId && db.births[k].date == date;
      assert Queries.WithCalves(db, db.births[k]) in Queries.BirthsWithCalves(db, motherId);
    }
    if exists bw :: bw in Queries.BirthsWithCalves(db, motherId) && bw.birth.date == date {
      var bw :| bw in Queries.BirthsWithCalves(db, motherId) && bw.birth.date == date;
      var k :| k in db.births && db.births[k].motherId == motherId && bw == Queries.WithCalves(db, db.births[k]);
      assert db.births[k].date == date;
    }
  }

  /** Some stored cow carries the tag. */
  predicate TagStored(db: Tables.Db, tag: string) {
    exists k :: k in db.cows && db.cows[k].earTag == tag
  }

  /** Every stored cow carrying the tag is MALE: whichever one the lookup finds passes the validation. */
  predicate AllWithTagMale(db: Tables.Db, tag: string) {
    forall k :: k in db.cows && db.cows[k].earTag == tag ==> db.cows[k].sex == Male
  }

  /** `s` is a stored MALE carrying the tag: a sire the validation accepts. */
  predicate IsSireFor(db: Tables.Db, s: int, tag: string) {
    s in db.cows && db.cows[s].earTag == tag && db.cows[s].sex == Male
  }

  /**
   * The outcome of an insemination write once the sire is settled: a date that fails to parse sets
   * the date message and writes nothing; otherwise the record built from the date is inserted (or,
   * for `isUpdate`, rewritten) and success reported, unless the store rejects it, which changes nothing.
   */
  predicate InseminationRecorded(before: Tables.Db, after: Tables.Db, date: Option<Date>,
                                 build: Date -> ArtificialInsemination, isUpdate: bool,
                                 errorBefore: Option<Message>, errorAfter: Option<Message>,
                                 successBefore: bool, successAfter: bool) {
    if date.None? then
      after == before && errorAfter == Some(InvalidDateFormat) && successAfter == successBefore
    else
      var i := build(date.value);
      && errorAfter == errorBefore
      && if isUpdate then
           if Tables.UpdateInseminationAccepted(before, i)
           then after == Tables.UpdateInsemination(before, i) && successAfter
           else after == before && successAfter == successBefore
         else
           if Tables.InsertInseminationAccepted(before, i)
           then after == Tables.InsertInsemination(before, i) && successAfter
           else after == before && successAfter == successBefore
  }

  class CowListViewModel {
    const repository: Repository.CowRepository
    var errorState: Option<Message>
    var operationSuccess: bool

    predicate Valid()
      reads repository.store
    {
      repository.store.Valid()
    }

    constructor (repository: Repository.CowRepository)
      ensures this.repository == repository
      ensures errorState == None && !operationSuccess
    {
      this.repository := repository;
      errorState := None;
      operationSuccess := false;
    }

    /** addCow: a complete, well-dated form inserts a new cow under a fresh id and reports success. */
    method AddCow(parse: string -> Option<Date>, earTag: string, breed: Option<Breed>, birthDate: string,
                  entryDate: string, exitDate: string, sex: Option<Sex>, category: Option<Category>)
      requires Valid()
      modifies this, repository.store
      ensures Valid()
      ensures !RequiredFieldsPresent(earTag, breed, birthDate, entryDate, sex, category) ==>
        && errorState == Some(MissingFields) && operationSuccess == old(operationSuccess)
        && repository.store.Snapshot() == old(repository.store.Snapshot())
      ensures RequiredFieldsPresent(earTag, breed, birthDate, entryDate, sex, category)
              && ParseDates(parse, birthDate, entryDate, exitDate).None? ==>
        && errorState == Some(InvalidDateFormat) && operationSuccess == old(operationSuccess)
        && repository.store.Snapshot() == old(repository.store.Snapshot())
      ensures RequiredFieldsPresent(earTag, breed, birthDate, entryDate, sex, category)
              && ParseDates(parse, birthDate, entryDate, exitDate).Some? ==>
        var dates := ParseDates(parse, birthDate, entryDate, exitDate).value;
        var c := NewCow(earTag, sex.value, breed.value, category.value, dates.birthDate, dates.entryDate, dates.exitDate);
        && repository.store.Snapshot() == Tables.InsertCow(old(repository.store.Snapshot()), c)
        && operationSuccess && errorState == old(errorState)
    {
      if !RequiredFieldsPresent(earTag, breed, birthDate, entryDate, sex, category) {
        errorState := Some(MissingFields);
        return;
      }
      var dates := ParseDates(parse, birthDate, entryDate, exitDate);
      if dates.None? {
        errorState := Some(InvalidDateFormat);
        return;
      }
      var c := NewCow(earTag, sex.value, breed.value, category.value, dates.value.birthDate, dates.value.entryDate,
                      dates.value.exitDate);
      // A new cow has a generated id and no birth reference, so the store always accepts it and
      // the handler for unexpected errors is never reached on this path.
      var id := repository.store.InsertCow(c);
      assert id.Some?;
      operationSuccess := true;
    }

    /**
     * updateCow: a complete, well-dated form rewrites the edited fields of the original record through
     * the all-or-nothing sex-change handling of the repository; a rejected rewrite changes nothing
     * there and reports an unexpected error.
     */
    method UpdateCow(parse: string -> Option<Date>, originalCow: Cow, earTag: string, breed: Option<Breed>,
                     birthDate: string, entryDate: string, exitDate: string, sex: Option<Sex>,
                     category: Option<Category>)
      requires Valid()
      modifies this, repository.store
      ensures Valid()
      ensures !RequiredFieldsPresent(earTag, breed, birthDate, entryDate, sex, category) ==>
        && errorState == Some(MissingFields) && operationSuccess == old(operationSuccess)
        && repository.store.Snapshot() == old(repository.store.Snapshot())
      ensures RequiredFieldsPresent(earTag, breed, birthDate, entryDate, sex, category)
              && ParseDates(parse, birthDate, entryDate, exitDate).None? ==>
        && errorState == Some(InvalidDateFormat) && operationSuccess == old(operationSuccess)
        && repository.store.Snapshot() == old(repository.store.Snapshot())
      ensures RequiredFieldsPresent(earTag, breed, birthDate, entryDate, sex, category)
              && ParseDates(parse, birthDate, entryDate, exitDate).Some? ==>
        var dates := ParseDates(parse, birthDate, entryDate, exitDate).value;
        var updated := Edited(originalCow, earTag, breed.value, dates, sex.value, category.value);
        && repository.store.Snapshot() == Repository.SexChange(old(repository.store.Snapshot()), updated)
        && (if Repository.SexChangeAccepted(old(repository.store.Snapshot()), updated)
            then operationSuccess && errorState == old(errorState)
            else errorState == Some(Unexpected) && operationSuccess == old(operationSuccess))
    {
      if !RequiredFieldsPresent(earTag, breed, birthDate, entryDate, sex, category) {
        errorState := Some(MissingFields);
        return;
      }
      var dates := ParseDates(parse, birthDate, entryDate, exitDate);
      if dates.None? {
        errorState := Some(InvalidDateFormat);
        return;
      }
      var updated := Edited(originalCow, earTag, breed.value, dates.value, sex.value, category.value);
      var ok := repository.UpdateCowAndHandleSexChange(updated);
      if ok {
        operationSuccess := true;
      } else {
        errorState := Some(Unexpected);
      }
    }

    /**
     * addBirth: refused with a message when the mother already has a birth on that date; otherwise
     * the birth is inserted and success reported. A birth whose mother is not stored is rejected by
     * the store and changes nothing.
     */
    method AddBirth(motherId: int, date: Date)
      requires Valid()
      modifies this, repository.store
      ensures Valid()
      ensures HasBirthOn(old(repository.store.Snapshot()), motherId, date) ==>
        && errorState == Some(DuplicateBirthDate) && operationSuccess == old(operationSuccess)
        && repository.store.Snapshot() == old(repository.store.Snapshot())
      ensures !HasBirthOn(old(repository.store.Snapshot()), motherId, date) ==>
        errorState == old(errorState) &&
        if Tables.InsertBirthAccepted(old(repository.store.Snapshot()), NewBirth(date, motherId))
        then repository.store.Snapshot() == Tables.InsertBirth(old(repository.store.Snapshot()), NewBirth(date, motherId))
             && operationSuccess
        else repository.store.Snapshot() == old(repository.store.Snapshot()) && operationSuccess == old(operationSuccess)
    {
      var births := Queries.BirthsWithCalves(repository.store.Snapshot(), motherId);
      DuplicateBirthIff(repository.store.Snapshot(), motherId, date);
      if exists bw :: bw in births && bw.birth.date == date {
        errorState := Some(DuplicateBirthDate);
      } else {
        var id := repository.store.InsertBirth(NewBirth(date, motherId));
        if id.Some? {
          operationSuccess := true;
        }
      }
    }

    /** updateBirth: the birth and its calf changes in one transaction; success is reported once it commits. */
    method UpdateBirth(birth: Birth, addedCalves: seq<Cow>, removedCalves: seq<Cow>)
      requires Valid()
      modifies this, repository.store
      ensures Valid()
      ensures errorState == old(errorState)
      ensures Tables.UpdateBirthAndCalvesAccepted(old(repository.store.Snapshot()), birth, addedCalves) ==>
        && repository.store.Snapshot()
           == Tables.UpdateBirthAndCalves(old(repository.store.Snapshot()), birth, addedCalves, removedCalves)
        && operationSuccess
      ensures !Tables.UpdateBirthAndCalvesAccepted(old(repository.store.Snapshot()), birth, addedCalves) ==>
        repository.store.Snapshot() == old(repository.store.Snapshot()) && operationSuccess == old(operationSuccess)
    {
      var ok := repository.store.UpdateBirthAndCalves(birth, addedCalves, removedCalves);
      if ok {
        operationSuccess := true;
      }
    }

    /**
     * getAndValidateSireId: no tag gives no sire and no message; otherwise the tag must name a stored
     * cow, and the cow found must be MALE. Ear tags are not unique, so when several cows carry the tag
     * the one found decides.
     */
    method GetAndValidateSireId(sireEarTag: Option<string>) returns (sireId: Option<int>)
      requires Valid()
      modifies this
      ensures operationSuccess == old(operationSuccess)
      ensures IsNullOrBlank(sireEarTag) ==> sireId == None && errorState == old(errorState)
      ensures sireId.Some? ==>
        && !IsNullOrBlank(sireEarTag) && errorState == old(errorState)
        && sireId.value in repository.store.cows
        && repository.store.cows[sireId.value].earTag == sireEarTag.value
        && repository.store.cows[sireId.value].sex == Male
      ensures !IsNullOrBlank(sireEarTag) && !TagStored(repository.store.Snapshot(), sireEarTag.value) ==>
        sireId == None && errorState == Some(SireNotFound(sireEarTag.value))
      ensures !IsNullOrBlank(sireEarTag) && sireId == None && TagStored(repository.store.Snapshot(), sireEarTag.value) ==>
        && errorState == Some(SireNotMale(sireEarTag.value))
        && exists k :: k in repository.store.cows && repository.store.cows[k].earTag == sireEarTag.value
                       && repository.store.cows[k].sex != Male
      ensures !IsNullOrBlank(sireEarTag) && AllWithTagMale(repository.store.Snapshot(), sireEarTag.value)
              && TagStored(repository.store.Snapshot(), sireEarTag.value) ==>
        sireId.Some?
    {
      if IsNullOrBlank(sireEarTag) {
        return None;
      }
      var sire := repository.store.FindCowByEarTag(sireEarTag.value);
      if sire.None? {
        errorState := Some(SireNotFound(sireEarTag.value));
        return None;
      }
      if sire.value.sex != Male {
        errorState := Some(SireNotMale(sireEarTag.value));
        return None;
      }
      return Some(sire.value.id);
    }

    /**
     * addInsemination: a sire tag that fails validation stops it with the validation's message; a
     * date that does not parse sets the date message; otherwise the insemination is inserted with
     * the validated sire, or none for a blank tag.
     */
    method AddInsemination(parse: string -> Option<Date>, cowId: int, date: string, sireEarTag: Option<string>)
      requires Valid()
      modifies this, repository.store
      ensures Valid()
      ensures IsNullOrBlank(sireEarTag) ==>
        InseminationRecorded(old(repository.store.Snapshot()), repository.store.Snapshot(), parse(date),
          (d: Date) => NewInsemination(d, cowId, None), false, old(errorState), errorState,
          old(operationSuccess), operationSuccess)
      ensures !IsNullOrBlank(sireEarTag) && !TagStored(old(repository.store.Snapshot()), sireEarTag.value) ==>
        && repository.store.Snapshot() == old(repository.store.Snapshot())
        && operationSuccess == old(operationSuccess) && errorState == Some(SireNotFound(sireEarTag.value))
      ensures !IsNullOrBlank(sireEarTag) && TagStored(old(repository.store.Snapshot()), sireEarTag.value) ==>
        || (&& errorState == Some(SireNotMale(sireEarTag.value))
            && repository.store.Snapshot() == old(repository.store.Snapshot())
            && operationSuccess == old(operationSuccess))
        || (exists s :: IsSireFor(old(repository.store.Snapshot()), s, sireEarTag.value) &&
              InseminationRecorded(old(repository.store.Snapshot()), repository.store.Snapshot(), parse(date),
                (d: Date) => NewInsemination(d, cowId, Some(s)), false, old(errorState), errorState,
                old(operationSuccess), operationSuccess))
      ensures !IsNullOrBlank(sireEarTag) && TagStored(old(repository.store.Snapshot()), sireEarTag.value)
              && AllWithTagMale(old(repository.store.Snapshot()), sireEarTag.value) ==>
        exists s :: IsSireFor(old(repository.store.Snapshot()), s, sireEarTag.value) &&
          InseminationRecorded(old(repository.store.Snapshot()), repository.store.Snapshot(), parse(date),
            (d: Date) => NewInsemination(d, cowId, Some(s)), false, old(errorState), errorState,
            old(operationSuccess), operationSuccess)
    {
      var sireId := GetAndValidateSireId(sireEarTag);
      if !IsNullOrBlank(sireEarTag) && sireId.None? {
        return;
      }
      ghost var before := repository.store.Snapshot();
      var d := parse(date);
      if d.None? {
        errorState := Some(InvalidDateFormat);
      } else {
        var i := NewInsemination(d.value, cowId, sireId);
        var id := repository.store.InsertInsemination(i);
        if id.Some? {
          operationSuccess := true;
        }
      }
      if sireId.Some? {
        assert IsSireFor(before, sireId.value, sireEarTag.value);
      }
    }

    /**
     * updateInsemination: the same validation as addInsemination, then the record is rewritten with
     * the new date and sire, keeping its id and inseminated cow.
     */
    method UpdateInsemination(parse: string -> Option<Date>, insemination: ArtificialInsemination, newDate: string,
                              newSireEarTag: Option<string>)
      requires Valid()
      modifies this, repository.store
      ensures Valid()
      ensures IsNullOrBlank(newSireEarTag) ==>
        InseminationRecorded(old(repository.store.Snapshot()), repository.store.Snapshot(), parse(newDate),
          (d: Date) => insemination.(date := d, sireId := None), true, old(errorState), errorState,
          old(operationSuccess), operationSuccess)
      ensures !IsNullOrBlank(newSireEarTag) && !TagStored(old(repository.store.Snapshot()), newSireEarTag.value) ==>
        && repository.store.Snapshot() == old(repository.store.Snapshot())
        && operationSuccess == old(operationSuccess) && errorState == Some(SireNotFound(newSireEarTag.value))
      ensures !IsNullOrBlank(newSireEarTag) && TagStored(old(repository.store.Snapshot()), newSireEarTag.value) ==>
        || (&& errorState == Some(SireNotMale(newSireEarTag.value))
            && repository.store.Snapshot() == old(repository.store.Snapshot())
            && operationSuccess == old(operationSuccess))
        || (exists s :: IsSireFor(old(repository.store.Snapshot()), s, newSireEarTag.value) &&
              InseminationRecorded(old(repository.store.Snapshot()), repository.store.Snapshot(), parse(newDate),
                (d: Date) => insemination.(date := d, sireId := Some(s)), true, old(errorState), errorState,
                old(operationSuccess), operationSuccess))
      ensures !IsNullOrBlank(newSireEarTag) && TagStored(old(repository.store.Snapshot()), newSireEarTag.value)
              && AllWithTagMale(old(repository.store.Snapshot()), newSireEarTag.value) ==>
        exists s :: IsSireFor(old(repository.store.Snapshot()), s, newSireEarTag.value) &&
          InseminationRecorded(old(repository.store.Snapshot()), repository.store.Snapshot(), parse(newDate),
            (d: Date) => insemination.(date := d, sireId := Some(s)), true, old(errorState), errorState,
            old(operationSuccess), operationSuccess)
    {
      var sireId := GetAndValidateSireId(newSireEarTag);
      if !IsNullOrBlank(newSireEarTag) && sireId.None? {
        return;
      }
      ghost var before := repository.store.Snapshot();
      var d := parse(newDate);
      if d.None? {
        errorState := Some(InvalidDateFormat);
      } else {
        var updated := insemination.(date := d.value, sireId := sireId);
        var ok := repository.store.UpdateInsemination(updated);
        if ok {
          operationSuccess := true;
        }
      }
      if sireId.Some? {
        assert IsSireFor(before, sireId.value, newSireEarTag.value);
      }
    }

    /** The screen has acted on the success: the flag drops back. */
    method OnOperationCompleted()
      modifies this
      ensures !operationSuccess && errorState == old(errorState)
    {
      operationSuccess := false;
    }

    /** The screen has shown the error: the message is cleared. */
    method OnErrorShown()
      modifies this
      ensures errorState == None && operationSuccess == old(operationSuccess)
    {
      errorState := None;
    }
  }
}
