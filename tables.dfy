/**
 * The three tables as one value, and the effect of every SQL statement the DAOs issue on it,
 * including the declared foreign-key actions:
 *   births.motherId             -> cows.id    ON DELETE CASCADE
 *   cows.birthId                -> births.id  ON DELETE SET NULL
 *   artificial_inseminations.cowId  -> cows.id  ON DELETE CASCADE
 *   artificial_inseminations.sireId -> cows.id  ON DELETE SET NULL
 * A statement that would break a foreign key is rejected and changes nothing; each write below
 * comes with the predicate that says when the store accepts it.
 */
module Tables {
  import opened Records

  datatype Db = Db(
    cows: map<int, Cow>,
    births: map<int, Birth>,
    inseminations: map<int, ArtificialInsemination>,
    nextCowId: int,           // one more than the largest cow id ever stored (AUTOINCREMENT)
    nextBirthId: int,
    nextInseminationId: int)

  const Empty: Db := Db(map[], map[], map[], 1, 1, 1)

  function Max(a: int, b: int): (r: int) { if a < b then b else a }

  /** Every row is stored under its own id, below its table's next generated id. */
  predicate KeysConsistent(db: Db) {
    && 1 <= db.nextCowId && 1 <= db.nextBirthId && 1 <= db.nextInseminationId
    && (forall k :: k in db.cows ==> db.cows[k].id == k && k < db.nextCowId)
    && (forall k :: k in db.births ==> db.births[k].id == k && k < db.nextBirthId)
    && (forall k :: k in db.inseminations ==> db.inseminations[k].id == k && k < db.nextInseminationId)
  }

  predicate BirthRefOk(db: Db, c: Cow) {
    c.birthId.Some? ==> c.birthId.value in db.births
  }

  predicate SireRefOk(db: Db, i: ArtificialInsemination) {
    i.sireId.Some? ==> i.sireId.value in db.cows
  }

  /** The four foreign keys hold. */
  predicate ReferentialIntegrity(db: Db) {
    && (forall k :: k in db.births ==> db.births[k].motherId in db.cows)
    && (forall k :: k in db.cows ==> BirthRefOk(db, db.cows[k]))
    && (forall k :: k in db.inseminations ==> db.inseminations[k].cowId in db.cows)
    && (forall k :: k in db.inseminations ==> SireRefOk(db, db.inseminations[k]))
  }

  predicate Valid(db: Db) {
    KeysConsistent(db) && ReferentialIntegrity(db)
  }

  /** The id an insert uses: a record with id 0 gets the next generated id, any other id is kept. */
  function AssignedId(next: int, id: int): (r: int) {
    if id == 0 then next else id
  }

  /** Ids of the births whose mother is `cowId`. */
  function BirthsOf(births: map<int, Birth>, cowId: int): (r: set<int>) {
    set k | k in births && births[k].motherId == cowId
  }

  /** ON DELETE SET NULL of `cows.birthId` for the deleted births `gone`. */
  function ClearBirthRef(c: Cow, gone: set<int>): (r: Cow) {
    if c.birthId.Some? && c.birthId.value in gone then c.(birthId := None) else c
  }

  function ClearBirthRefs(cows: map<int, Cow>, gone: set<int>): (r: map<int, Cow>) {
    map k | k in cows :: ClearBirthRef(cows[k], gone)
  }

  /** ON DELETE SET NULL of `artificial_inseminations.sireId` for the deleted cow `cowId`. */
  function ClearSire(i: ArtificialInsemination, cowId: int): (r: ArtificialInsemination) {
    if i.sireId == Some(cowId) then i.(sireId := None) else i
  }

  // ---- cows ----

  predicate InsertCowAccepted(db: Db, c: Cow) {
    (c.id == 0 || c.id !in db.cows) && BirthRefOk(db, c)
  }

  function InsertCow(db: Db, c: Cow): (r: Db)
    requires InsertCowAccepted(db, c)
  {
    var k := AssignedId(db.nextCowId, c.id);
    db.(cows := db.cows[k := c.(id := k)], nextCowId := Max(db.nextCowId, k + 1))
  }

  /** An update of an absent row touches nothing and so cannot violate a key. */
  predicate UpdateCowAccepted(db: Db, c: Cow) {
    c.id in db.cows ==> BirthRefOk(db, c)
  }

  function UpdateCow(db: Db, c: Cow): (r: Db) {
    if c.id in db.cows then db.(cows := db.cows[c.id := c]) else db
  }

  /** DELETE of one cow with every foreign-key action it triggers. */
  function DeleteCow(db: Db, id: int): (r: Db) {
    var gone := BirthsOf(db.births, id);
    db.(cows := map k | k in db.cows && k != id :: ClearBirthRef(db.cows[k], gone),
        births := map k | k in db.births && db.births[k].motherId != id :: db.births[k],
        inseminations := map k | k in db.inseminations && db.inseminations[k].cowId != id
                                :: ClearSire(db.inseminations[k], id))
  }

  /** ON DELETE SET NULL of every `sireId` naming the cow `cowId`. */
  function ClearSires(db: Db, cowId: int): (r: Db) {
    db.(inseminations := map k | k in db.inseminations :: ClearSire(db.inseminations[k], cowId))
  }

  // ---- births ----

  predicate InsertBirthAccepted(db: Db, b: Birth) {
    (b.id == 0 || b.id !in db.births) && b.motherId in db.cows
  }

  function InsertBirth(db: Db, b: Birth): (r: Db)
    requires InsertBirthAccepted(db, b)
  {
    var k := AssignedId(db.nextBirthId, b.id);
    db.(births := db.births[k := b.(id := k)], nextBirthId := Max(db.nextBirthId, k + 1))
  }

  predicate UpdateBirthAccepted(db: Db, b: Birth) {
    b.id in db.births ==> b.motherId in db.cows
  }

  function UpdateBirth(db: Db, b: Birth): (r: Db) {
    if b.id in db.births then db.(births := db.births[b.id := b]) else db
  }

  /** DELETE of one birth: its calves stay, with their birth reference set to null. */
  function DeleteBirth(db: Db, id: int): (r: Db) {
    db.(births := db.births - {id}, cows := ClearBirthRefs(db.cows, {id}))
  }

  /** DELETE FROM births WHERE motherId = cowId, with the SET NULL on the calves. */
  function DeleteBirthsByCowId(db: Db, cowId: int): (r: Db) {
    db.(births := map k | k in db.births && db.births[k].motherId != cowId :: db.births[k],
        cows := ClearBirthRefs(db.cows, BirthsOf(db.births, cowId)))
  }

  // ---- inseminations ----

  predicate InsertInseminationAccepted(db: Db, i: ArtificialInsemination) {
    (i.id == 0 || i.id !in db.inseminations) && i.cowId in db.cows && SireRefOk(db, i)
  }

  function InsertInsemination(db: Db, i: ArtificialInsemination): (r: Db)
    requires InsertInseminationAccepted(db, i)
  {
    var k := AssignedId(db.nextInseminationId, i.id);
    db.(inseminations := db.inseminations[k := i.(id := k)], nextInseminationId := Max(db.nextInseminationId, k + 1))
  }

  predicate UpdateInseminationAccepted(db: Db, i: ArtificialInsemination) {
    i.id in db.inseminations ==> i.cowId in db.cows && SireRefOk(db, i)
  }

  function UpdateInsemination(db: Db, i: ArtificialInsemination): (r: Db) {
    if i.id in db.inseminations then db.(inseminations := db.inseminations[i.id := i]) else db
  }

  function DeleteInsemination(db: Db, id: int): (r: Db) {
    db.(inseminations := db.inseminations - {id})
  }

  /** DELETE FROM artificial_inseminations WHERE cowId = cowId. */
  function DeleteInseminationsByCowId(db: Db, cowId: int): (r: Db) {
    db.(inseminations := map k | k in db.inseminations && db.inseminations[k].cowId != cowId :: db.inseminations[k])
  }

  // ---- the BirthDao transaction updateBirthAndCalves ----

  /** Successive full-row UPDATEs of `cows`, first row first. */
  function WriteCows(db: Db, rows: seq<Cow>): (r: Db)
    decreases |rows|
  {
    if rows == [] then db else UpdateCow(WriteCows(db, rows[..|rows| - 1]), rows[|rows| - 1])
  }

  /** Each record with its birth reference replaced, as `it.copy(birthId = ...)` does. */
  function WithBirthId(rows: seq<Cow>, birthId: Option<int>): (r: seq<Cow>)
    ensures |r| == |rows|
    ensures forall i :: 0 <= i < |rows| ==> r[i] == rows[i].(birthId := birthId)
  {
    seq(|rows|, i requires 0 <= i < |rows| => rows[i].(birthId := birthId))
  }

  /**
   * The transaction commits when the birth update is accepted and every calf update is:
   * a calf update fails only when the calf is stored and the birth is not.
   */
  predicate UpdateBirthAndCalvesAccepted(db: Db, b: Birth, added: seq<Cow>) {
    && UpdateBirthAccepted(db, b)
    && (b.id !in db.births ==> forall i :: 0 <= i < |added| ==> added[i].id !in db.cows)
  }

  /** The birth row, then every added calf pointed at it, then every removed calf pointed at nothing. */
  function UpdateBirthAndCalves(db: Db, b: Birth, added: seq<Cow>, removed: seq<Cow>): (r: Db) {
    WriteCows(WriteCows(UpdateBirth(db, b), WithBirthId(added, Some(b.id))), WithBirthId(removed, None))
  }

  /** Ids of the stored cows whose birth reference is `birthId`. */
  function CalfIds(db: Db, birthId: int): (r: set<int>) {
    set k | k in db.cows && db.cows[k].birthId == Some(birthId)
  }

  /** Ids named by a list of records. */
  function Ids(rows: seq<Cow>): (r: set<int>) {
    set i | 0 <= i < |rows| :: rows[i].id
  }
}
