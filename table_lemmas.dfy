/** What each statement of the store does to the three tables, and that it keeps the foreign keys. */
module TableLemmas {
  import opened Records
  import opened Tables

  // ---- inserts ----

  /** An accepted insert stores the record under a new id (a generated one for id 0) and changes no other row. */
  lemma InsertCowEffect(db: Db, c: Cow)
    requires Valid(db) && InsertCowAccepted(db, c)
    ensures var k := AssignedId(db.nextCowId, c.id); var after := InsertCow(db, c);
      && Valid(after)
      && k !in db.cows && k != 0
      && (c.id == 0 ==> forall j :: j in db.cows ==> j < k)
      && after.cows.Keys == db.cows.Keys + {k}
      && after.cows[k] == c.(id := k)
      && (forall j :: j in db.cows ==> after.cows[j] == db.cows[j])
      && after.births == db.births && after.inseminations == db.inseminations
  {
  }

  lemma InsertBirthEffect(db: Db, b: Birth)
    requires Valid(db) && InsertBirthAccepted(db, b)
    ensures var k := AssignedId(db.nextBirthId, b.id); var after := InsertBirth(db, b);
      && Valid(after)
      && k !in db.births && k != 0
      && (b.id == 0 ==> forall j :: j in db.births ==> j < k)
      && after.births.Keys == db.births.Keys + {k}
      && after.births[k] == b.(id := k)
      && (forall j :: j in db.births ==> after.births[j] == db.births[j])
      && after.cows == db.cows && after.inseminations == db.inseminations
  {
  }

  lemma InsertInseminationEffect(db: Db, i: ArtificialInsemination)
    requires Valid(db) && InsertInseminationAccepted(db, i)
    ensures var k := AssignedId(db.nextInseminationId, i.id); var after := InsertInsemination(db, i);
      && Valid(after)
      && k !in db.inseminations && k != 0
      && (i.id == 0 ==> forall j :: j in db.inseminations ==> j < k)
      && after.inseminations.Keys == db.inseminations.Keys + {k}
      && after.inseminations[k] == i.(id := k)
      && (forall j :: j in db.inseminations ==> after.inseminations[j] == db.inseminations[j])
      && after.cows == db.cows && after.births == db.births
  {
  }

  /** The store asks of a sire only that it is a stored cow; its sex is not looked at. */
  lemma SireSexNotChecked(db: Db, i: ArtificialInsemination, sex: Sex)
    requires (i.id == 0 || i.id !in db.inseminations) && i.cowId in db.cows
    requires i.sireId.Some? && i.sireId.value in db.cows && db.cows[i.sireId.value].sex == sex
    ensures InsertInseminationAccepted(db, i) && UpdateInseminationAccepted(db, i)
  {
  }

  // ---- updates ----

  /** A full-row update replaces the row with the record's id, and is a no-op when there is none. */
  lemma UpdateCowEffect(db: Db, c: Cow)
    requires Valid(db) && UpdateCowAccepted(db, c)
    ensures var after := UpdateCow(db, c);
      && Valid(after)
      && after.cows.Keys == db.cows.Keys
      && (c.id in db.cows ==> after.cows[c.id] == c)
      && (forall j :: j in db.cows && j != c.id ==> after.cows[j] == db.cows[j])
      && (c.id !in db.cows ==> after == db)
      && after.births == db.births && after.inseminations == db.inseminations
  {
  }

  lemma UpdateBirthEffect(db: Db, b: Birth)
    requires Valid(db) && UpdateBirthAccepted(db, b)
    ensures var after := UpdateBirth(db, b);
      && Valid(after)
      && after.births.Keys == db.births.Keys
      && (b.id in db.births ==> after.births[b.id] == b)
      && (forall j :: j in db.births && j != b.id ==> after.births[j] == db.births[j])
      && (b.id !in db.births ==> after == db)
      && after.cows == db.cows && after.inseminations == db.inseminations
  {
  }

  lemma UpdateInseminationEffect(db: Db, i: ArtificialInsemination)
    requires Valid(db) && UpdateInseminationAccepted(db, i)
    ensures var after := UpdateInsemination(db, i);
      && Valid(after)
      && after.inseminations.Keys == db.inseminations.Keys
      && (i.id in db.inseminations ==> after.inseminations[i.id] == i)
      && (forall j :: j in db.inseminations && j != i.id ==> after.inseminations[j] == db.inseminations[j])
      && (i.id !in db.inseminations ==> after == db)
      && after.cows == db.cows && after.births == db.births
  {
  }

  // ---- deletes ----

  /**
   * Deleting a cow removes her row, her births and the inseminations she received; inseminations
   * that name her as sire survive with no sire; calves of her births survive with no birth;
   * `motherId` has no foreign key and is left as it was.
   */
  lemma DeleteCowEffect(db: Db, id: int)
    requires Valid(db)
    ensures var after := DeleteCow(db, id); var gone := BirthsOf(db.births, id);
      && Valid(after)
      && after.cows.Keys == db.cows.Keys - {id}
      && (forall k :: k in db.births ==> (k in after.births <==> db.births[k].motherId != id))
      && (forall k :: k in after.births ==> after.births[k] == db.births[k])
      && (forall k :: k in db.inseminations ==> (k in after.inseminations <==> db.inseminations[k].cowId != id))
      && (forall k :: k in after.inseminations ==>
            after.inseminations[k].sireId != Some(id) &&
            after.inseminations[k] == ClearSire(db.inseminations[k], id))
      && (forall k :: k in after.cows ==>
            after.cows[k].birthId.Some? ==> after.cows[k].birthId.value !in gone)
      && (forall k :: k in after.cows ==> after.cows[k] == ClearBirthRef(db.cows[k], gone))
      && (forall k :: k in after.cows ==> after.cows[k].motherId == db.cows[k].motherId)
  {
  }

  /**
   * The cow delete as the store carries it out: sire references cleared, her inseminations
   * deleted, her births deleted (releasing their calves), then her row removed. Every stage
   * keeps the foreign keys.
   */
  lemma DeleteCowSteps(db: Db, id: int)
    requires Valid(db)
    ensures Valid(ClearSires(db, id))
    ensures var s := DeleteBirthsByCowId(DeleteInseminationsByCowId(ClearSires(db, id), id), id);
      DeleteCow(db, id) == s.(cows := s.cows - {id})
  {
    var s1 := ClearSires(db, id);
    var s2 := DeleteInseminationsByCowId(s1, id);
    var s3 := DeleteBirthsByCowId(s2, id);
    var d := DeleteCow(db, id);
    assert s3.births == d.births;
    forall k | k in db.inseminations
      ensures k in s3.inseminations <==> k in d.inseminations
    {
      assert s1.inseminations[k].cowId == db.inseminations[k].cowId;
    }
    assert s3.inseminations == d.inseminations;
    assert s3.cows - {id} == d.cows;
  }

  /** The `motherId` of a calf may name a cow that no longer exists: the store allows it. */
  lemma MotherIdMayDangle()
    ensures var mother := Cow(1, "M", Female, Breed(0), Category(0), Date(0), Date(0), None, None, None);
            var calf := Cow(2, "C", Female, Breed(0), Category(0), Date(1), Date(1), None, Some(1), None);
            var db := Db(map[1 := mother, 2 := calf], map[], map[], 3, 1, 1);
            var after := DeleteCow(db, 1);
      && Valid(db) && Valid(after)
      && 2 in after.cows && after.cows[2].motherId == Some(1) && 1 !in after.cows
  {
    var mother := Cow(1, "M", Female, Breed(0), Category(0), Date(0), Date(0), None, None, None);
    var calf := Cow(2, "C", Female, Breed(0), Category(0), Date(1), Date(1), None, Some(1), None);
    var db := Db(map[1 := mother, 2 := calf], map[], map[], 3, 1, 1);
    var after := DeleteCow(db, 1);
    assert after.cows == map[2 := calf];
  }

  /** Deleting a birth removes that row only; its calves stay, with no birth. */
  lemma DeleteBirthEffect(db: Db, id: int)
    requires Valid(db)
    ensures var after := DeleteBirth(db, id);
      && Valid(after)
      && after.births.Keys == db.births.Keys - {id}
      && (forall k :: k in after.births ==> after.births[k] == db.births[k])
      && after.cows.Keys == db.cows.Keys
      && CalfIds(after, id) == {}
      && (forall k :: k in db.cows ==>
            after.cows[k] == if db.cows[k].birthId == Some(id) then db.cows[k].(birthId := None) else db.cows[k])
      && after.inseminations == db.inseminations
  {
    var after := DeleteBirth(db, id);
    forall k | k in after.cows ensures after.cows[k].birthId != Some(id) {
    }
  }

  /** Deleting the births of a mother removes exactly those rows and releases their calves. */
  lemma DeleteBirthsByCowIdEffect(db: Db, cowId: int)
    requires Valid(db)
    ensures var after := DeleteBirthsByCowId(db, cowId);
      && Valid(after)
      && (forall k :: k in db.births ==> (k in after.births <==> db.births[k].motherId != cowId))
      && (forall k :: k in after.births ==> after.births[k] == db.births[k])
      && after.cows.Keys == db.cows.Keys
      && (forall k :: k in after.cows ==> after.cows[k] == ClearBirthRef(db.cows[k], BirthsOf(db.births, cowId)))
      && after.inseminations == db.inseminations
  {
  }

  /** Deleting the inseminations of a cow removes exactly those where she is the inseminated cow. */
  lemma DeleteInseminationsByCowIdEffect(db: Db, cowId: int)
    requires Valid(db)
    ensures var after := DeleteInseminationsByCowId(db, cowId);
      && Valid(after)
      && (forall k :: k in db.inseminations ==> (k in after.inseminations <==> db.inseminations[k].cowId != cowId))
      && (forall k :: k in after.inseminations ==> after.inseminations[k] == db.inseminations[k])
      && after.cows == db.cows && after.births == db.births
  {
  }

  lemma DeleteInseminationEffect(db: Db, id: int)
    requires Valid(db)
    ensures var after := DeleteInsemination(db, id);
      && Valid(after)
      && after.inseminations.Keys == db.inseminations.Keys - {id}
      && (forall k :: k in after.inseminations ==> after.inseminations[k] == db.inseminations[k])
      && after.cows == db.cows && after.births == db.births
  {
  }

  // ---- successive cow updates ----

  /** The last record of `rows` with the given id: the one a sequence of updates leaves behind. */
  function LastWith(rows: seq<Cow>, id: int): (r: Option<Cow>)
    ensures r.Some? ==> r.value.id == id && r.value in rows
    ensures r.None? <==> id !in Ids(rows)
    decreases |rows|
  {
    if rows == [] then None
    else if rows[|rows| - 1].id == id then Some(rows[|rows| - 1])
    else
      var r := LastWith(rows[..|rows| - 1], id);
      assert id in Ids(rows) ==> id in Ids(rows[..|rows| - 1]) by {
        if id in Ids(rows) {
          var i :| 0 <= i < |rows| && rows[i].id == id;
          assert i < |rows| - 1;
          assert rows[..|rows| - 1][i] == rows[i];
        }
      }
      assert id in Ids(rows[..|rows| - 1]) ==> id in Ids(rows) by {
        if id in Ids(rows[..|rows| - 1]) {
          var i :| 0 <= i < |rows| - 1 && rows[..|rows| - 1][i].id == id;
          assert rows[i].id == id;
        }
      }
      r
  }

  /** Reference meaning of a run of updates: each stored row becomes the last record with its id. */
  function Overwritten(cows: map<int, Cow>, rows: seq<Cow>): (r: map<int, Cow>) {
    map k | k in cows :: if LastWith(rows, k).Some? then LastWith(rows, k).value else cows[k]
  }

  lemma {:induction false} WriteCowsOverwrites(db: Db, rows: seq<Cow>)
    ensures WriteCows(db, rows) == db.(cows := Overwritten(db.cows, rows))
    decreases |rows|
  {
    if rows != [] {
      var pre, r := rows[..|rows| - 1], rows[|rows| - 1];
      WriteCowsOverwrites(db, pre);
      var mid := WriteCows(db, pre);
      assert mid.cows.Keys == db.cows.Keys;
      forall k | k in db.cows
        ensures WriteCows(db, rows).cows[k] == Overwritten(db.cows, rows)[k]
      {
        if k != r.id {
          assert LastWith(rows, k) == LastWith(pre, k);
        }
      }
    }
  }

  /** A record re-tagged with a birth reference is found again, re-tagged, as the last one with its id. */
  lemma {:induction false} LastWithTagged(rows: seq<Cow>, tag: Option<int>, id: int)
    ensures LastWith(WithBirthId(rows, tag), id) ==
            if LastWith(rows, id).Some? then Some(LastWith(rows, id).value.(birthId := tag)) else None
    decreases |rows|
  {
    if rows != [] {
      var tagged := WithBirthId(rows, tag);
      assert tagged[..|tagged| - 1] == WithBirthId(rows[..|rows| - 1], tag);
      LastWithTagged(rows[..|rows| - 1], tag, id);
    }
  }

  /** Where a stored cow ends after updateBirthAndCalves: removals win over additions. */
  function CalfRowAfter(c: Cow, b: Birth, added: seq<Cow>, removed: seq<Cow>): (r: Cow) {
    if c.id in Ids(removed) then LastWith(removed, c.id).value.(birthId := None)
    else if c.id in Ids(added) then LastWith(added, c.id).value.(birthId := Some(b.id))
    else c
  }

  lemma UpdateBirthAndCalvesRows(db: Db, b: Birth, added: seq<Cow>, removed: seq<Cow>)
    requires KeysConsistent(db)
    ensures UpdateBirthAndCalves(db, b, added, removed) ==
            UpdateBirth(db, b).(cows := map k | k in db.cows :: CalfRowAfter(db.cows[k], b, added, removed))
  {
    var first := UpdateBirth(db, b);
    var addedTagged, removedTagged := WithBirthId(added, Some(b.id)), WithBirthId(removed, None);
    WriteCowsOverwrites(first, addedTagged);
    var mid := WriteCows(first, addedTagged);
    WriteCowsOverwrites(mid, removedTagged);
    var after := UpdateBirthAndCalves(db, b, added, removed);
    forall k | k in db.cows
      ensures after.cows[k] == CalfRowAfter(db.cows[k], b, added, removed)
    {
      LastWithTagged(added, Some(b.id), k);
      LastWithTagged(removed, None, k);
    }
  }

  lemma UpdateBirthAndCalvesKeepsKeys(db: Db, b: Birth, added: seq<Cow>, removed: seq<Cow>)
    requires KeysConsistent(db)
    ensures KeysConsistent(UpdateBirthAndCalves(db, b, added, removed))
    ensures UpdateBirthAndCalves(db, b, added, removed).cows.Keys == db.cows.Keys
  {
    UpdateBirthAndCalvesRows(db, b, added, removed);
  }

  /**
   * updateBirthAndCalves: the birth row is replaced; a stored cow named among the removed calves ends
   * with no birth (removals run last); one named only among the added calves ends as its last passed
   * record pointed at the birth; every other cow, every other birth and every insemination is untouched.
   */
  lemma UpdateBirthAndCalvesEffect(db: Db, b: Birth, added: seq<Cow>, removed: seq<Cow>)
    requires Valid(db) && UpdateBirthAndCalvesAccepted(db, b, added)
    ensures var after := UpdateBirthAndCalves(db, b, added, removed);
      && Valid(after)
      && after.births.Keys == db.births.Keys
      && (b.id in db.births ==> after.births[b.id] == b)
      && (forall j :: j in db.births && j != b.id ==> after.births[j] == db.births[j])
      && after.inseminations == db.inseminations
      && after.cows.Keys == db.cows.Keys
      && (forall k :: k in db.cows && k !in Ids(added) && k !in Ids(removed) ==> after.cows[k] == db.cows[k])
      && (forall k :: k in db.cows && k in Ids(removed) ==>
            after.cows[k] == LastWith(removed, k).value.(birthId := None))
      && (forall k :: k in db.cows && k in Ids(added) && k !in Ids(removed) ==>
            after.cows[k] == LastWith(added, k).value.(birthId := Some(b.id)))
  {
    UpdateBirthEffect(db, b);
    UpdateBirthAndCalvesRows(db, b, added, removed);
    var after := UpdateBirthAndCalves(db, b, added, removed);
    forall k | k in db.cows && k in Ids(added) && k !in Ids(removed)
      ensures b.id in db.births
    {
      var i :| 0 <= i < |added| && added[i].id == k;
    }
    assert KeysConsistent(after);
    forall k | k in after.cows ensures BirthRefOk(after, after.cows[k]) {
      assert after.cows[k] == CalfRowAfter(db.cows[k], b, added, removed);
    }
  }

  /**
   * The calves of the updated birth become (old calves + stored added calves) - removed calves,
   * and a cow added or removed here leaves the calves of every other birth.
   */
  lemma UpdateBirthAndCalvesCalves(db: Db, b: Birth, added: seq<Cow>, removed: seq<Cow>)
    requires Valid(db)
    ensures var after := UpdateBirthAndCalves(db, b, added, removed);
      && CalfIds(after, b.id) == (CalfIds(db, b.id) + (Ids(added) * db.cows.Keys)) - Ids(removed)
      && (forall other :: other != b.id ==> CalfIds(after, other) == CalfIds(db, other) - Ids(added) - Ids(removed))
  {
    UpdateBirthAndCalvesRows(db, b, added, removed);
    var after := UpdateBirthAndCalves(db, b, added, removed);
    forall k | k in db.cows
      ensures after.cows[k].birthId ==
        if k in Ids(removed) then None else if k in Ids(added) then Some(b.id) else db.cows[k].birthId
    {
      assert after.cows[k] == CalfRowAfter(db.cows[k], b, added, removed);
    }
    assert CalfIds(after, b.id) == (CalfIds(db, b.id) + (Ids(added) * db.cows.Keys)) - Ids(removed);
    forall other | other != b.id
      ensures CalfIds(after, other) == CalfIds(db, other) - Ids(added) - Ids(removed)
    {
    }
  }
}
