/** The three persisted entities of the herd book and the value types they use. */
module Records {

  datatype Option<+T> = None | Some(value: T)

  datatype Sex = Female | Male

  /** Breed and category are enumerations whose constants are not part of this model. */
  datatype Breed = Breed(ordinal: nat)
  datatype Category = Category(ordinal: nat)

  /** A calendar date, compared only for equality (days since an epoch). */
  datatype Date = Date(epochDay: int)

  /** A row of the `cows` table. `motherId` carries no foreign key; `birthId` refers to `births.id`. */
  datatype Cow = Cow(
    id: int,
    earTag: string,
    sex: Sex,
    breed: Breed,
    category: Category,
    birthDate: Date,
    entryDate: Date,
    exitDate: Option<Date>,
    motherId: Option<int>,
    birthId: Option<int>)

  /** A row of the `births` table; `motherId` is mandatory and refers to `cows.id`. */
  datatype Birth = Birth(id: int, date: Date, motherId: int)

  /** A row of the `artificial_inseminations` table: the inseminated cow is mandatory, the sire optional. */
  datatype ArtificialInsemination = ArtificialInsemination(id: int, date: Date, cowId: int, sireId: Option<int>)

  /** The cow row the add form builds: id 0 (to be generated), no mother, no birth, the other fields as entered. */
  function NewCow(earTag: string, sex: Sex, breed: Breed, category: Category, birthDate: Date, entryDate: Date,
                  exitDate: Option<Date>): (c: Cow)
    ensures c.id == 0 && c.motherId == None && c.birthId == None
    ensures c.earTag == earTag && c.sex == sex && c.breed == breed && c.category == category
    ensures c.birthDate == birthDate && c.entryDate == entryDate && c.exitDate == exitDate
  {
    Cow(0, earTag, sex, breed, category, birthDate, entryDate, exitDate, None, None)
  }

  /** A birth whose id is left to the store. */
  function NewBirth(date: Date, motherId: int): (b: Birth)
    ensures b.id == 0 && b.date == date && b.motherId == motherId
  {
    Birth(0, date, motherId)
  }

  /** An insemination whose id is left to the store. */
  function NewInsemination(date: Date, cowId: int, sireId: Option<int>): (i: ArtificialInsemination)
    ensures i.id == 0 && i.date == date && i.cowId == cowId && i.sireId == sireId
  {
    ArtificialInsemination(0, date, cowId, sireId)
  }
}
