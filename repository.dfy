/**
 * CowRepository: its one operation with logic of its own, `updateCowAndHandleSexChange`. When a
 * stored FEMALE changes sex, her births and the inseminations she received are deleted before
 * the cow row is rewritten. A MALE that changes sex loses nothing.
 *
 * The operation is annotated as a transaction, but the annotation sits on a plain class and not
 * on a DAO, so nothing wraps the three statements together. `SexChangeAsWritten` models that
 * behaviour and `AsWrittenKeepsPurgeOfRejectedUpdate` shows what it leads to. `SexChange` is the
 * all-or-nothing behaviour the annotation asks for; it is what the repository implements here
 * and what the view model uses.
 */
module Repository {
  import opened Records
  import opened Tables
  import TableLemmas
  import Queries
  import Daos

  /** A stored FEMALE whose sex changes: the case in which her births and inseminations are purged. */
  predicate FemaleLosesSex(db: Db, updated: Cow) {
    updated.id in db.cows && db.cows[updated.id].sex == Female && updated.sex != Female
  }

  /** The deletions run before the row is rewritten. */
  function Purge(db: Db, updated: Cow): (r: Db) {
    if FemaleLosesSex(db, updated)
    then DeleteInseminationsByCowId(DeleteBirthsByCowId(db, updated.id), updated.id)
    else db
  }

  /** The final row update is accepted by the tables the purge left behind. */
  predicate SexChangeAccepted(db: Db, updated: Cow) {
    UpdateCowAccepted(Purge(db, updated), updated)
  }

  /** As written: the purge stays committed even when the row update that follows is rejected. */
  function SexChangeAsWritten(db: Db, updated: Cow): (r: Db) {
    var purged := Purge(db, updated);
    if UpdateCowAccepted(purged, updated) then UpdateCow(purged, updated) else purged
  }

  /** All or nothing: the purge and the row update, or no change at all. */
  function SexChange(db: Db, updated: Cow): (r: Db) {
    if SexChangeAccepted(db, updated) then UpdateCow(Purge(db, updated), updated) else db
  }

  lemma PurgeEffect(db: Db, updated: Cow)
    requires Valid(db)
    ensures var p := Purge(db, updated);
      && Valid(p)
      && p.cows.Keys == db.cows.Keys
      && (forall k :: k in db.cows && k != updated.id ==>
            p.cows[k] == if FemaleLosesSex(db, updated)
                         then ClearBirthRef(db.cows[k], BirthsOf(db.births, updated.id)) else db.cows[k])
  {
    if FemaleLosesSex(db, updated) {
      TableLemmas.DeleteBirthsByCowIdEffect(db, updated.id);
      TableLemmas.DeleteInseminationsByCowIdEffect(DeleteBirthsByCowId(db, updated.id), updated.id);
    }
  }

  /**
   * The update is rejected exactly when the cow is stored and the record names a birth that is not
   * stored once the purge is done: either a birth that never existed or one of her own births.
   */
  lemma SexChangeAcceptedIff(db: Db, updated: Cow)
    requires Valid(db)
    ensures SexChangeAccepted(db, updated) <==>
      (updated.id in db.cows && updated.birthId.Some? ==>
         updated.birthId.value in db.births
         && (FemaleLosesSex(db, updated) ==> db.births[updated.birthId.value].motherId != updated.id))
  {
  }

  /** The all-or-nothing sex change keeps every foreign key. */
  lemma SexChangeValid(db: Db, updated: Cow)
    requires Valid(db)
    ensures Valid(SexChange(db, updated))
  {
    PurgeEffect(db, updated);
    if SexChangeAccepted(db, updated) {
      TableLemmas.UpdateCowEffect(Purge(db, updated), updated);
    }
  }

  /**
   * A stored FEMALE becoming MALE: afterwards no birth has her as mother, no insemination has her as
   * the inseminated cow, and her row is the updated record.
   */
  lemma FemaleSexChangePurges(db: Db, updated: Cow)
    requires Valid(db) && FemaleLosesSex(db, updated) && SexChangeAccepted(db, updated)
    ensures var after := SexChange(db, updated);
      && (forall k :: k in after.births ==> after.births[k].motherId != updated.id)
      && (forall k :: k in after.inseminations ==> after.inseminations[k].cowId != updated.id)
      && after.cows[updated.id] == updated
  {
  }

  /** No sex change removes an insemination in which the cow is only the sire. */
  lemma SexChangeKeepsSireRows(db: Db, updated: Cow)
    ensures var after := SexChange(db, updated);
      forall k :: k in db.inseminations && db.inseminations[k].cowId != updated.id ==>
        k in after.inseminations && after.inseminations[k] == db.inseminations[k]
  {
  }

  /** A MALE changing sex, or a cow keeping hers: only her row may change. */
  lemma NoPurgeUnlessFemaleChanges(db: Db, updated: Cow)
    requires !FemaleLosesSex(db, updated)
    ensures var after := SexChange(db, updated);
      && after.births == db.births && after.inseminations == db.inseminations
      && after.cows.Keys == db.cows.Keys
      && (forall k :: k in db.cows && k != updated.id ==> after.cows[k] == db.cows[k])
  {
  }

  /** With the cow stored, her row ends as the updated record exactly when the change is accepted. */
  lemma SexChangeWritesRow(db: Db, updated: Cow)
    requires Valid(db) && updated.id in db.cows
    ensures var after := SexChange(db, updated);
      updated.id in after.cows && (after.cows[updated.id] == updated <==> SexChangeAccepted(db, updated) || db.cows[updated.id] == updated)
  {
    PurgeEffect(db, updated);
  }

  /** With no cow stored under the record's id, nothing changes. */
  lemma AbsentCowNoChange(db: Db, updated: Cow)
    requires updated.id !in db.cows
    ensures SexChange(db, updated) == db
  {
  }

  /** Calves of the births purged by a FEMALE's sex change survive, with no birth. */
  lemma PurgedBirthsReleaseCalves(db: Db, updated: Cow)
    requires Valid(db) && FemaleLosesSex(db, updated) && SexChangeAccepted(db, updated)
    ensures var after := SexChange(db, updated);
      forall k :: k in db.cows && k != updated.id ==>
        k in after.cows
        && after.cows[k] == ClearBirthRef(db.cows[k], BirthsOf(db.births, updated.id))
        && (db.cows[k].birthId.Some? && db.cows[k].birthId.value in BirthsOf(db.births, updated.id)
            ==> after.cows[k].birthId == None)
  {
    PurgeEffect(db, updated);
  }

  /** After a FEMALE becomes MALE, her details list no inseminations and no births. */
  lemma FemaleToMaleDetailsEmpty(db: Db, updated: Cow)
    requires Valid(db) && FemaleLosesSex(db, updated) && SexChangeAccepted(db, updated)
    ensures var after := SexChange(db, updated);
      && Queries.GetCowWithDetails(after, updated.id).Some?
      && Queries.GetCowWithDetails(after, updated.id).value.inseminations == {}
      && Queries.GetCowWithDetails(after, updated.id).value.births == {}
  {
    FemaleSexChangePurges(db, updated);
    var after := SexChange(db, updated);
    var d := Queries.GetCowWithDetails(after, updated.id).value;
    Queries.CowDetailsExact(after, updated);
    if d.inseminations != {} {
      var i := Queries.Pick(d.inseminations);
      assert false;
    }
    if d.births != {} {
      var b := Queries.Pick(d.births);
      assert false;
    }
  }

  /**
   * The code as written is not all or nothing. A FEMALE that is recorded as a calf of one of her own
   * births (the store allows it) is edited to MALE with no other change: the purge deletes that birth
   * and clears her birth reference, the row update still names the deleted birth and is rejected, and
   * the births stay deleted while she is still FEMALE. The all-or-nothing version changes nothing.
   */
  lemma AsWrittenKeepsPurgeOfRejectedUpdate()
    ensures var cow := Cow(1, "DE01", Female, Breed(0), Category(0), Date(0), Date(0), None, None, Some(20));
            var db := Db(map[1 := cow], map[20 := Birth(20, Date(0), 1)], map[], 2, 21, 1);
            var updated := cow.(sex := Male);
            var partial := SexChangeAsWritten(db, updated);
      && Valid(db)
      && !SexChangeAccepted(db, updated)
      && partial.births == map[]
      && partial.cows[1].sex == Female && partial.cows[1].birthId == None
      && SexChange(db, updated) == db
  {
    var cow := Cow(1, "DE01", Female, Breed(0), Category(0), Date(0), Date(0), None, None, Some(20));
    var db := Db(map[1 := cow], map[20 := Birth(20, Date(0), 1)], map[], 2, 21, 1);
    var updated := cow.(sex := Male);
    var purged := Purge(db, updated);
    assert BirthsOf(db.births, 1) == {20};
    assert purged.births == map[];
  }

  /** When the row update is accepted, the code as written and the all-or-nothing version agree. */
  lemma AsWrittenAgreesWhenAccepted(db: Db, updated: Cow)
    requires SexChangeAccepted(db, updated)
    ensures SexChangeAsWritten(db, updated) == SexChange(db, updated)
  {
  }

  class CowRepository {
    const store: Daos.Store

    constructor (store: Daos.Store)
      ensures this.store == store
    {
      this.store := store;
    }

    /**
     * Reads the stored cow; if she was FEMALE and the sex changes, deletes her births and the
     * inseminations she received; then rewrites the row. A rejected rewrite rolls everything back.
     */
    method UpdateCowAndHandleSexChange(updated: Cow) returns (ok: bool)
      requires store.Valid()
      modifies store
      ensures store.Valid()
      ensures ok <==> SexChangeAccepted(old(store.Snapshot()), updated)
      ensures store.Snapshot() == SexChange(old(store.Snapshot()), updated)
    {
      var saved := store.Snapshot();
      var original := Queries.CowById(store.Snapshot(), updated.id);
      if original.Some? && original.value.sex != updated.sex {
        match original.value.sex
        case Female =>
          store.DeleteBirthsByCowId(original.value.id);
          store.DeleteInseminationsByCowId(original.value.id);
        case Male =>
      }
      assert store.Snapshot() == Purge(saved, updated);
      ok := store.UpdateCow(updated);
      if !ok {
        store.Restore(saved);
      }
    }
  }
}
