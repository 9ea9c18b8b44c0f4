/**
 * The Room database behind the three DAOs: one object holding the three tables and their
 * AUTOINCREMENT counters. Every write is proved to have exactly the effect of the matching
 * statement in `Tables`, and to keep the foreign keys. The read queries are the functions of
 * `Queries` applied to `Snapshot()`.
 */
module Daos {
  import opened Records
  import Tables
  import TableLemmas
  import Queries

  /** The cows while `deleteAndDissociate` runs: the calves still `pending` keep their birth, the rest have none. */
  ghost function Dissociated(cows: map<int, Cow>, pending: set<Cow>, id: int): (r: map<int, Cow>) {
    map k | k in cows :: if cows[k] in pending then cows[k] else Tables.ClearBirthRef(cows[k], {id})
  }

  /** Writing one pending calf back with no birth takes it off the pending calves. */
  lemma DissociateStep(cows: map<int, Cow>, pending: set<Cow>, calf: Cow, id: int)
    requires forall k :: k in cows ==> cows[k].id == k
    requires calf in pending && calf.id in cows && cows[calf.id] == calf && calf.birthId == Some(id)
    ensures Dissociated(cows, pending, id)[calf.id := calf.(birthId := None)] == Dissociated(cows, pending - {calf}, id)
  {
    var before, after := Dissociated(cows, pending, id), Dissociated(cows, pending - {calf}, id);
    forall k | k in cows && k != calf.id
      ensures before[k] == after[k]
    {
      assert cows[k] != calf;
    }
  }

  class Store {
    var cows: map<int, Cow>
    var births: map<int, Birth>
    var inseminations: map<int, ArtificialInsemination>
    var nextCowId: int
    var nextBirthId: int
    var nextInseminationId: int

    /** The tables as one value. */
    function Snapshot(): (r: Tables.Db)
      reads this
    {
      Tables.Db(cows, births, inseminations, nextCowId, nextBirthId, nextInseminationId)
    }

    /** Rows stored under their ids and the four foreign keys satisfied. */
    predicate Valid()
      reads this
    {
      Tables.Valid(Snapshot())
    }

    /** A freshly created database: three empty tables. */
    constructor ()
      ensures Valid() && Snapshot() == Tables.Empty
    {
      cows, births, inseminations := map[], map[], map[];
      nextCowId, nextBirthId, nextInseminationId := 1, 1, 1;
    }

    /** Puts back the tables saved at the start of a transaction. */
    method Restore(db: Tables.Db)
      requires Tables.Valid(db)
      modifies this
      ensures Valid() && Snapshot() == db
    {
      cows, births, inseminations := db.cows, db.births, db.inseminations;
      nextCowId, nextBirthId, nextInseminationId := db.nextCowId, db.nextBirthId, db.nextInseminationId;
    }

    // ---- CowDao ----

    /** INSERT into `cows`; the generated or given id, or None when a constraint rejects the row. */
    method InsertCow(c: Cow) returns (id: Option<int>)
      requires Valid()
      modifies this
      ensures Valid()
      ensures id.Some? <==> Tables.InsertCowAccepted(old(Snapshot()), c)
      ensures id.Some? ==> id.value == Tables.AssignedId(old(nextCowId), c.id)
                           && Snapshot() == Tables.InsertCow(old(Snapshot()), c)
      ensures id.None? ==> Snapshot() == old(Snapshot())
    {
      if !Tables.InsertCowAccepted(Snapshot(), c) {
        return None;
      }
      TableLemmas.InsertCowEffect(Snapshot(), c);
      var k := Tables.AssignedId(nextCowId, c.id);
      cows := cows[k := c.(id := k)];
      nextCowId := Tables.Max(nextCowId, k + 1);
      id := Some(k);
    }

    /** UPDATE of the whole row `c.id`; false when the new row breaks the birth reference. */
    method UpdateCow(c: Cow) returns (ok: bool)
      requires Valid()
      modifies this
      ensures Valid()
      ensures ok <==> Tables.UpdateCowAccepted(old(Snapshot()), c)
      ensures Snapshot() == if ok then Tables.UpdateCow(old(Snapshot()), c) else old(Snapshot())
    {
      ok := Tables.UpdateCowAccepted(Snapshot(), c);
      if ok {
        TableLemmas.UpdateCowEffect(Snapshot(), c);
        if c.id in cows {
          cows := cows[c.id := c];
        }
      }
    }

    /**
     * DELETE of the row `c.id`, carried out as the foreign-key actions it triggers: the
     * inseminations naming her as sire lose their sire, the inseminations she received and her
     * births go (their calves lose their birth), and finally her row goes.
     */
    method DeleteCow(c: Cow)
      requires Valid()
      modifies this
      ensures Valid() && Snapshot() == Tables.DeleteCow(old(Snapshot()), c.id)
    {
      TableLemmas.DeleteCowSteps(Snapshot(), c.id);
      TableLemmas.DeleteCowEffect(Snapshot(), c.id);
      inseminations := map k | k in inseminations :: Tables.ClearSire(inseminations[k], c.id);
      DeleteInseminationsByCowId(c.id);
      DeleteBirthsByCowId(c.id);
      cows := cows - {c.id};
    }

    // ---- BirthDao ----

    /** INSERT into `births`; the generated or given id, or None when a constraint rejects the row. */
    method InsertBirth(b: Birth) returns (id: Option<int>)
      requires Valid()
      modifies this
      ensures Valid()
      ensures id.Some? <==> Tables.InsertBirthAccepted(old(Snapshot()), b)
      ensures id.Some? ==> id.value == Tables.AssignedId(old(nextBirthId), b.id)
                           && Snapshot() == Tables.InsertBirth(old(Snapshot()), b)
      ensures id.None? ==> Snapshot() == old(Snapshot())
    {
      if !Tables.InsertBirthAccepted(Snapshot(), b) {
        return None;
      }
      TableLemmas.InsertBirthEffect(Snapshot(), b);
      var k := Tables.AssignedId(nextBirthId, b.id);
      births := births[k := b.(id := k)];
      nextBirthId := Tables.Max(nextBirthId, k + 1);
      id := Some(k);
    }

    /** UPDATE of the whole row `b.id`; false when the new mother is not a stored cow. */
    method UpdateBirth(b: Birth) returns (ok: bool)
      requires Valid()
      modifies this
      ensures Valid()
      ensures ok <==> Tables.UpdateBirthAccepted(old(Snapshot()), b)
      ensures Snapshot() == if ok then Tables.UpdateBirth(old(Snapshot()), b) else old(Snapshot())
    {
      ok := Tables.UpdateBirthAccepted(Snapshot(), b);
      if ok {
        TableLemmas.UpdateBirthEffect(Snapshot(), b);
        if b.id in births {
          births := births[b.id := b];
        }
      }
    }

    /** DELETE of the row `b.id`, with the SET NULL on the calves that referred to it. */
    method DeleteBirth(b: Birth)
      requires Valid()
      modifies this
      ensures Valid() && Snapshot() == Tables.DeleteBirth(old(Snapshot()), b.id)
    {
      TableLemmas.DeleteBirthEffect(Snapshot(), b.id);
      cows := Tables.ClearBirthRefs(cows, {b.id});
      births := births - {b.id};
    }

    /** DELETE FROM births WHERE motherId = cowId, with the SET NULL on their calves. */
    method DeleteBirthsByCowId(cowId: int)
      requires Valid()
      modifies this
      ensures Valid() && Snapshot() == Tables.DeleteBirthsByCowId(old(Snapshot()), cowId)
    {
      TableLemmas.DeleteBirthsByCowIdEffect(Snapshot(), cowId);
      cows := Tables.ClearBirthRefs(cows, Tables.BirthsOf(births, cowId));
      births := map k | k in births && births[k].motherId != cowId :: births[k];
    }

    /**
     * The transaction `deleteAndDissociate`: every calf of the birth is written back with no birth,
     * one at a time, and then the birth is deleted. The result is the plain delete of the birth.
     */
    method DeleteAndDissociate(b: Birth)
      requires Valid()
      modifies this
      ensures Valid() && Snapshot() == Tables.DeleteBirth(old(Snapshot()), b.id)
    {
      ghost var start := Snapshot();
      var calves := Queries.CalvesOfBirth(Snapshot(), b.id);
      forall k | k in cows
        ensures cows[k] == (if cows[k] in calves then cows[k] else Tables.ClearBirthRef(cows[k], {b.id}))
      {
        if cows[k].birthId == Some(b.id) {
          assert cows[k] in calves;
        }
      }
      assert cows == Dissociated(start.cows, calves, b.id);
      while calves != {}
        invariant Valid()
        invariant births == start.births && inseminations == start.inseminations
        invariant nextCowId == start.nextCowId && nextBirthId == start.nextBirthId
        invariant nextInseminationId == start.nextInseminationId
        invariant forall x :: x in calves ==> x.id in start.cows && start.cows[x.id] == x && x.birthId == Some(b.id)
        invariant cows == Dissociated(start.cows, calves, b.id)
        decreases calves
      {
        ghost var some := Queries.Pick(calves);
        var calf :| calf in calves;
        DissociateStep(start.cows, calves, calf, b.id);
        var ok := UpdateCow(calf.(birthId := None));
        calves := calves - {calf};
      }
      assert cows == Tables.ClearBirthRefs(start.cows, {b.id});
      DeleteBirth(b);
    }

    /**
     * The calf updates of `updateBirthAndCalves`: each record, pointed at `birthId`, written in
     * turn. A write fails only when it points a stored cow at a birth that is not stored; on
     * failure the caller rolls back, so only the successful run's state is stated.
     */
    method WriteCalves(rows: seq<Cow>, birthId: Option<int>) returns (ok: bool)
      requires Valid()
      modifies this
      ensures Valid()
      ensures ok <==> (birthId.Some? && birthId.value !in old(births) ==>
                       forall j :: 0 <= j < |rows| ==> rows[j].id !in old(cows))
      ensures ok ==> Snapshot() == Tables.WriteCows(old(Snapshot()), Tables.WithBirthId(rows, birthId))
    {
      ghost var start := Snapshot();
      for i := 0 to |rows|
        invariant Valid()
        invariant cows.Keys == start.cows.Keys && births == start.births
        invariant Snapshot() == Tables.WriteCows(start, Tables.WithBirthId(rows[..i], birthId))
        invariant birthId.Some? && birthId.value !in start.births ==>
                  forall j :: 0 <= j < i ==> rows[j].id !in start.cows
      {
        ghost var before := Tables.WithBirthId(rows[..i], birthId);
        ghost var after := Tables.WithBirthId(rows[..i + 1], birthId);
        assert after[..|after| - 1] == before;
        ok := UpdateCow(rows[i].(birthId := birthId));
        if !ok {
          return;
        }
      }
      assert rows[..|rows|] == rows;
      ok := true;
    }

    /**
     * The transaction `updateBirthAndCalves`: the birth row, then every added calf pointed at it,
     * then every removed calf pointed at nothing. When one statement is rejected the whole
     * transaction is rolled back and false is returned.
     */
    method UpdateBirthAndCalves(b: Birth, added: seq<Cow>, removed: seq<Cow>) returns (ok: bool)
      requires Valid()
      modifies this
      ensures Valid()
      ensures ok <==> Tables.UpdateBirthAndCalvesAccepted(old(Snapshot()), b, added)
      ensures Snapshot() == if ok then Tables.UpdateBirthAndCalves(old(Snapshot()), b, added, removed)
                            else old(Snapshot())
    {
      var saved := Snapshot();
      ok := UpdateBirth(b);
      if ok {
        ok := WriteCalves(added, Some(b.id));
      }
      if ok {
        ok := WriteCalves(removed, None);
      }
      if !ok {
        Restore(saved);
      }
    }

    // ---- ArtificialInseminationDao ----

    /** INSERT into `artificial_inseminations`; the id, or None when a constraint rejects the row. */
    method InsertInsemination(i: ArtificialInsemination) returns (id: Option<int>)
      requires Valid()
      modifies this
      ensures Valid()
      ensures id.Some? <==> Tables.InsertInseminationAccepted(old(Snapshot()), i)
      ensures id.Some? ==> id.value == Tables.AssignedId(old(nextInseminationId), i.id)
                           && Snapshot() == Tables.InsertInsemination(old(Snapshot()), i)
      ensures id.None? ==> Snapshot() == old(Snapshot())
    {
      if !Tables.InsertInseminationAccepted(Snapshot(), i) {
        return None;
      }
      TableLemmas.InsertInseminationEffect(Snapshot(), i);
      var k := Tables.AssignedId(nextInseminationId, i.id);
      inseminations := inseminations[k := i.(id := k)];
      nextInseminationId := Tables.Max(nextInseminationId, k + 1);
      id := Some(k);
    }

    /** UPDATE of the whole row `i.id`; false when the new cow or sire is not a stored cow. */
    method UpdateInsemination(i: ArtificialInsemination) returns (ok: bool)
      requires Valid()
      modifies this
      ensures Valid()
      ensures ok <==> Tables.UpdateInseminationAccepted(old(Snapshot()), i)
      ensures Snapshot() == if ok then Tables.UpdateInsemination(old(Snapshot()), i) else old(Snapshot())
    {
      ok := Tables.UpdateInseminationAccepted(Snapshot(), i);
      if ok {
        TableLemmas.UpdateInseminationEffect(Snapshot(), i);
        if i.id in inseminations {
          inseminations := inseminations[i.id := i];
        }
      }
    }

    method DeleteInsemination(i: ArtificialInsemination)
      requires Valid()
      modifies this
      ensures Valid() && Snapshot() == Tables.DeleteInsemination(old(Snapshot()), i.id)
    {
      TableLemmas.DeleteInseminationEffect(Snapshot(), i.id);
      inseminations := inseminations - {i.id};
    }

    /** DELETE FROM artificial_inseminations WHERE cowId = cowId. */
    method DeleteInseminationsByCowId(cowId: int)
      requires Valid()
      modifies this
      ensures Valid() && Snapshot() == Tables.DeleteInseminationsByCowId(old(Snapshot()), cowId)
    {
      TableLemmas.DeleteInseminationsByCowIdEffect(Snapshot(), cowId);
      inseminations := map k | k in inseminations && inseminations[k].cowId != cowId :: inseminations[k];
    }

    // ---- lookup by ear tag ----

    /** Some stored cow carrying the ear tag (ear tags are not unique), or None when no cow does. */
    method FindCowByEarTag(tag: string) returns (r: Option<Cow>)
      requires Valid()
      ensures r.Some? ==> r.value.earTag == tag && r.value.id in cows && cows[r.value.id] == r.value
      ensures r.None? <==> forall k :: k in cows ==> cows[k].earTag != tag
    {
      if k :| k in cows && cows[k].earTag == tag {
        r := Some(cows[k]);
      } else {
        r := None;
      }
    }
  }
}
