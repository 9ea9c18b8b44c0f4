/**
 * The read side of the DAOs: selections and the three join views, as snapshots of the tables.
 * Room returns lists in no guaranteed order, so every result here is a set.
 */
module Queries {
  import opened Records
  import opened Tables
  import opened TableLemmas

  /** A cow with the inseminations she received (joined on `cowId`) and the births she gave (on `motherId`). */
  datatype CowWithDetails = CowWithDetails(cow: Cow, inseminations: set<ArtificialInsemination>, births: set<Birth>)

  /** A birth with the cows whose `birthId` is its id. */
  datatype BirthWithCalves = BirthWithCalves(birth: Birth, calves: set<Cow>)

  /** An insemination with the cow whose id is its `cowId` (absent only if that key were broken). */
  datatype InseminationWithCow = InseminationWithCow(insemination: ArtificialInsemination, cow: Option<Cow>)

  /** SELECT * FROM cows WHERE id = k */
  function CowById(db: Db, k: int): (r: Option<Cow>) {
    if k in db.cows then Some(db.cows[k]) else None
  }

  /** SELECT * FROM cows WHERE birthDate = d */
  function CowsByBirthDate(db: Db, d: Date): (r: set<Cow>) {
    set k | k in db.cows && db.cows[k].birthDate == d :: db.cows[k]
  }

  function DetailsOf(db: Db, c: Cow): (r: CowWithDetails) {
    CowWithDetails(
      c,
      set k | k in db.inseminations && db.inseminations[k].cowId == c.id :: db.inseminations[k],
      set k | k in db.births && db.births[k].motherId == c.id :: db.births[k])
  }

  /** getCowWithDetails */
  function GetCowWithDetails(db: Db, k: int): (r: Option<CowWithDetails>) {
    if k in db.cows then Some(DetailsOf(db, db.cows[k])) else None
  }

  /** getAllCowsWithDetails */
  function AllCowsWithDetails(db: Db): (r: set<CowWithDetails>) {
    set k | k in db.cows :: DetailsOf(db, db.cows[k])
  }

  /** getCalvesOfBirth: SELECT * FROM cows WHERE birthId = k */
  function CalvesOfBirth(db: Db, k: int): (r: set<Cow>) {
    set j | j in db.cows && db.cows[j].birthId == Some(k) :: db.cows[j]
  }

  function WithCalves(db: Db, b: Birth): (r: BirthWithCalves) {
    BirthWithCalves(b, CalvesOfBirth(db, b.id))
  }

  /** getBirthsWithCalves: the births of one mother, each with its calves. */
  function BirthsWithCalves(db: Db, motherId: int): (r: set<BirthWithCalves>) {
    set k | k in db.births && db.births[k].motherId == motherId :: WithCalves(db, db.births[k])
  }

  function WithCow(db: Db, i: ArtificialInsemination): (r: InseminationWithCow) {
    InseminationWithCow(i, CowById(db, i.cowId))
  }

  /** getInseminationsBySire: SELECT * FROM artificial_inseminations WHERE sireId = s, each joined on cowId. */
  function InseminationsBySire(db: Db, s: int): (r: set<InseminationWithCow>) {
    set k | k in db.inseminations && db.inseminations[k].sireId == Some(s) :: WithCow(db, db.inseminations[k])
  }

  // ---- lemmas ----

  /** getCowById is absent exactly when no stored cow carries that id, and otherwise yields the cow with it. */
  lemma CowByIdAbsentIff(db: Db, k: int)
    requires KeysConsistent(db)
    ensures CowById(db, k).None? <==> forall c :: c in db.cows.Values ==> c.id != k
    ensures CowById(db, k).Some? ==> CowById(db, k).value.id == k && CowById(db, k).value in db.cows.Values
  {
    if k in db.cows {
      assert db.cows[k] in db.cows.Values;
    } else {
      forall c | c in db.cows.Values ensures c.id != k {
        ValueHasKey(db.cows, c);
      }
    }
  }

  /** Round trip: what insertCow stores is read back by getCowById under the returned id. */
  lemma InsertCowRoundTrip(db: Db, c: Cow)
    requires Valid(db) && InsertCowAccepted(db, c)
    ensures var k := AssignedId(db.nextCowId, c.id);
      && CowById(InsertCow(db, c), k) == Some(c.(id := k))
      && CowById(db, k) == None
      && forall j :: j != k ==> CowById(InsertCow(db, c), j) == CowById(db, j)
  {
    InsertCowEffect(db, c);
  }

  /** Round trip for inseminations: the new row appears in its sire's listing, joined with its cow. */
  lemma InsertInseminationRoundTrip(db: Db, i: ArtificialInsemination)
    requires Valid(db) && InsertInseminationAccepted(db, i) && i.sireId.Some?
    ensures var k := AssignedId(db.nextInseminationId, i.id); var after := InsertInsemination(db, i);
      && k !in db.inseminations
      && InseminationWithCow(i.(id := k), Some(db.cows[i.cowId])) in InseminationsBySire(after, i.sireId.value)
  {
    InsertInseminationEffect(db, i);
    var k := AssignedId(db.nextInseminationId, i.id);
    var after := InsertInsemination(db, i);
    assert after.inseminations[k].sireId == Some(i.sireId.value);
  }

  /** getCowsByBirthDate yields stored cows with that date, and every such cow. */
  lemma CowsByBirthDateExact(db: Db, d: Date)
    ensures forall c :: c in CowsByBirthDate(db, d) <==> c in db.cows.Values && c.birthDate == d
  {
    forall c | c in db.cows.Values && c.birthDate == d
      ensures c in CowsByBirthDate(db, d)
    {
      ValueHasKey(db.cows, c);
      var k :| k in db.cows && db.cows[k] == c;
    }
  }

  /** Inserted and still on the same day: the new cow is among the potential calves of that date. */
  lemma InsertedCowIsPotentialCalf(db: Db, c: Cow)
    requires Valid(db) && InsertCowAccepted(db, c)
    ensures var k := AssignedId(db.nextCowId, c.id);
      CowsByBirthDate(InsertCow(db, c), c.birthDate) == CowsByBirthDate(db, c.birthDate) + {c.(id := k)}
  {
    InsertCowEffect(db, c);
    var k := AssignedId(db.nextCowId, c.id);
    var after := InsertCow(db, c);
    CowsByBirthDateExact(db, c.birthDate);
    CowsByBirthDateExact(after, c.birthDate);
    forall x | x in CowsByBirthDate(after, c.birthDate)
      ensures x in CowsByBirthDate(db, c.birthDate) + {c.(id := k)}
    {
      var j :| j in after.cows && after.cows[j] == x;
      if j != k {
        assert db.cows[j] == x;
      }
    }
  }

  const NoDetails := CowWithDetails(NewCow([], Female, Breed(0), Category(0), Date(0), Date(0), None), {}, {})

  /** An element of a non-empty set. */
  lemma Pick<T>(s: set<T>) returns (x: T)
    requires s != {}
    ensures x in s
  {
    if forall y :: y !in s {
      assert false;
    }
    x :| x in s;
  }

  lemma ValueHasKey<T>(m: map<int, T>, c: T)
    requires c in m.Values
    ensures exists k :: k in m && m[k] == c
  {
    if forall k :: k in m ==> m[k] != c {
      assert false;
    }
  }

  /** A map that is one-to-one on a set keeps the set's size. */
  lemma {:induction false} InjectiveImageSize(keys: set<int>, f: int -> CowWithDetails)
    requires forall a, b :: a in keys && b in keys && f(a) == f(b) ==> a == b
    ensures |set k | k in keys :: f(k)| == |keys|
    decreases |keys|
  {
    if keys != {} {
      var x := Pick(keys);
      var rest := keys - {x};
      InjectiveImageSize(rest, f);
      var image := set k | k in keys :: f(k);
      var restImage := set k | k in rest :: f(k);
      assert image == restImage + {f(x)};
      assert f(x) !in restImage;
    }
  }

  /** getAllCowsWithDetails has exactly one entry per stored cow, each with that cow's own details. */
  lemma AllCowsWithDetailsOnePerCow(db: Db)
    requires KeysConsistent(db)
    ensures |AllCowsWithDetails(db)| == |db.cows|
    ensures forall k :: k in db.cows ==> DetailsOf(db, db.cows[k]) in AllCowsWithDetails(db)
    ensures forall d :: d in AllCowsWithDetails(db) ==> d.cow.id in db.cows && d == DetailsOf(db, db.cows[d.cow.id])
  {
    var h := (k: int) => if k in db.cows then DetailsOf(db, db.cows[k]) else NoDetails;
    assert AllCowsWithDetails(db) == set k | k in db.cows.Keys :: h(k);
    InjectiveImageSize(db.cows.Keys, h);
    assert |db.cows.Keys| == |db.cows|;
  }

  /** The details of a cow hold exactly the inseminations she received and the births she gave; rows where she is only the sire are not among them. */
  lemma CowDetailsExact(db: Db, c: Cow)
    ensures forall k :: k in db.inseminations ==>
              (db.inseminations[k] in DetailsOf(db, c).inseminations <== db.inseminations[k].cowId == c.id)
    ensures forall i :: i in DetailsOf(db, c).inseminations ==> i.cowId == c.id && i in db.inseminations.Values
    ensures forall k :: k in db.births ==>
              (db.births[k] in DetailsOf(db, c).births <== db.births[k].motherId == c.id)
    ensures forall b :: b in DetailsOf(db, c).births ==> b.motherId == c.id && b in db.births.Values
  {
  }

  /** Because `birthId` holds one value, a cow is listed among the calves of at most one birth. */
  lemma CalvesAtMostOneBirth(db: Db, c: Cow, k1: int, k2: int)
    requires c in CalvesOfBirth(db, k1) && c in CalvesOfBirth(db, k2)
    ensures k1 == k2
  {
  }

  /** The calves of a birth are the stored cows whose ids make up CalfIds. */
  lemma CalvesOfBirthByIds(db: Db, k: int)
    requires KeysConsistent(db)
    ensures forall c :: c in CalvesOfBirth(db, k) <==> c.id in CalfIds(db, k) && c == db.cows[c.id]
  {
    forall c: Cow | c.id in CalfIds(db, k) && c == db.cows[c.id]
      ensures c in CalvesOfBirth(db, k)
    {
    }
  }

  /** After deleteAndDissociate (or a plain delete) no cow is listed as a calf of the deleted birth. */
  lemma DeletedBirthHasNoCalves(db: Db, id: int)
    requires Valid(db)
    ensures CalvesOfBirth(DeleteBirth(db, id), id) == {}
  {
    DeleteBirthEffect(db, id);
    var after := DeleteBirth(db, id);
    CalvesOfBirthByIds(after, id);
    assert CalfIds(after, id) == {};
  }

  /**
   * Editing a birth's calf list with disjoint added and removed calves, all stored: the calves of the
   * birth become the old calves without the removed ones, plus the added ones.
   */
  lemma UpdateBirthCalvesView(db: Db, b: Birth, added: seq<Cow>, removed: seq<Cow>)
    requires Valid(db) && UpdateBirthAndCalvesAccepted(db, b, added)
    requires Ids(added) * Ids(removed) == {} && Ids(added) <= db.cows.Keys
    ensures var after := UpdateBirthAndCalves(db, b, added, removed);
      forall c :: c in CalvesOfBirth(after, b.id) <==>
        c.id in after.cows && c == after.cows[c.id] && c.id in (CalfIds(db, b.id) - Ids(removed)) + Ids(added)
  {
    UpdateBirthAndCalvesKeepsKeys(db, b, added, removed);
    UpdateBirthAndCalvesCalves(db, b, added, removed);
    var after := UpdateBirthAndCalves(db, b, added, removed);
    var ids := CalfIds(after, b.id);
    assert Ids(added) * db.cows.Keys == Ids(added);
    assert ids == (CalfIds(db, b.id) + Ids(added)) - Ids(removed);
    forall x | x in Ids(added) ensures x !in Ids(removed) {
      assert x !in Ids(added) * Ids(removed);
    }
    assert ids == (CalfIds(db, b.id) - Ids(removed)) + Ids(added);
    CalvesOfBirthByIds(after, b.id);
  }

  /**
   * The listing of a sire holds exactly the inseminations naming it, each paired with the cow that was
   * inseminated (joined on `cowId`, never the sire), and that cow is always present.
   */
  lemma InseminationsBySireJoin(db: Db, s: int)
    requires Valid(db)
    ensures forall e :: e in InseminationsBySire(db, s) ==>
      && e.insemination.sireId == Some(s)
      && e.insemination.id in db.inseminations && db.inseminations[e.insemination.id] == e.insemination
      && e.cow.Some? && e.cow.value == db.cows[e.insemination.cowId] && e.cow.value.id == e.insemination.cowId
    ensures forall k :: k in db.inseminations && db.inseminations[k].sireId == Some(s) ==>
      InseminationWithCow(db.inseminations[k], Some(db.cows[db.inseminations[k].cowId])) in InseminationsBySire(db, s)
  {
  }

  /** An insemination without a sire appears in no sire's listing. */
  lemma NoSireNoListing(db: Db, k: int, s: int)
    requires k in db.inseminations && db.inseminations[k].sireId == None
    ensures forall e :: e in InseminationsBySire(db, s) ==> e.insemination != db.inseminations[k]
  {
  }

  /**
   * Deleting a cow removes her inseminations from every sire's listing, empties her own listing as
   * a sire, and keeps every other listed insemination.
   */
  lemma DeletedCowLeavesSireListings(db: Db, id: int, s: int)
    requires Valid(db)
    ensures var after := DeleteCow(db, id);
      && (forall e :: e in InseminationsBySire(after, s) ==> e.insemination.cowId != id)
      && (s == id ==> InseminationsBySire(after, s) == {})
      && (s != id ==> forall e :: e in InseminationsBySire(db, s) && e.insemination.cowId != id ==>
            WithCow(after, e.insemination) in InseminationsBySire(after, s))
  {
    DeleteCowEffect(db, id);
    var after := DeleteCow(db, id);
    if s != id {
      forall e | e in InseminationsBySire(db, s) && e.insemination.cowId != id
        ensures WithCow(after, e.insemination) in InseminationsBySire(after, s)
      {
        var k :| k in db.inseminations && db.inseminations[k].sireId == Some(s) && e == WithCow(db, db.inseminations[k]);
        assert k in after.inseminations && after.inseminations[k] == e.insemination;
      }
    }
  }
}
