# Herd book data-consistency model

A Dafny model of the data layer of an Android herd-book app. The app keeps three linked tables:
cows, births and artificial inseminations. Room stores them in SQLite and declares four foreign
keys on them:

- `births.motherId → cows.id`, ON DELETE CASCADE;
- `cows.birthId → births.id`, ON DELETE SET NULL;
- `artificial_inseminations.cowId → cows.id`, ON DELETE CASCADE;
- `artificial_inseminations.sireId → cows.id`, ON DELETE SET NULL.

`Cow.motherId` has no foreign key.

The model is layered as the app is:

- `records.dfy` (`Records`): the three entity records and their constructor defaults.
- `tables.dfy` (`Tables`): the tables as one value `Db`, with the AUTOINCREMENT counters. It has
  the referential-integrity predicate `Valid` and one function per SQL statement the DAOs issue.
  Each write comes with the predicate that says when SQLite accepts it. A statement that would
  break a foreign key is rejected and changes nothing.
- `table_lemmas.dfy` (`TableLemmas`): what each statement does to every table, and that each one
  keeps `Valid`.
- `queries.dfy` (`Queries`): the reading queries and the three Room relations (`CowWithDetails`,
  `BirthWithCalves`, `InseminationWithCow`). They are functions over a snapshot and return sets,
  because the SQL imposes no order.
- `daos.dfy` (`Daos`): the database as a class `Store` with three `map` fields and three counters.
  Each DAO write is a method proved to have exactly the effect of its `Tables` function.
  `deleteAndDissociate` and `updateBirthAndCalves` loop over the calves as the DAO does. A DAO
  transaction whose statement is rejected is rolled back.
- `repository.dfy` (`Repository`): `updateCowAndHandleSexChange`. A FEMALE whose sex changes loses
  her births and the inseminations she received, then the row is rewritten.
- `viewmodel.dfy` (`ViewModel`): the form validation of `CowListViewModel` and its two observable
  flags, the error message and the success flag.
- `screen.dfy` (`Screen`): `formatEnum`, and the two calf lists of the birth-editing dialog. This
  covers moving calves between the lists and computing the added and removed calves on save.

## Model

Source paths are relative to the repository root.

| member | source | states |
|---|---|---|
| Records.NewCow | app/src/main/java/cow/management/cowmanagementservice/model/Cow.kt:25-37 | the row the add form builds: id 0 (to be generated), no mother and no birth; ear tag, sex, breed, category and the three dates (exit date included) as passed |
| Records.NewBirth | app/src/main/java/cow/management/cowmanagementservice/model/Birth.kt:19-24 | a new birth has id 0 and a mandatory mother |
| Records.NewInsemination | app/src/main/java/cow/management/cowmanagementservice/model/ArtificialInsemination.kt:25-31 | a new insemination has id 0, a mandatory cow and an optional sire |
| Tables.WithBirthId | app/src/main/java/cow/management/cowmanagementservice/database/dao/BirthDao.kt:42-47 | `it.copy(birthId = …)` over a list: same length, each record with only its birth reference replaced |
| Tables.InsertCow | app/src/main/java/cow/management/cowmanagementservice/database/dao/CowDao.kt:17-18 | `@Insert` of a cow: the row under its given id, or under the next AUTOINCREMENT id for id 0, with the counter advanced; partner `TableLemmas.InsertCowEffect` |
| Tables.UpdateCow | app/src/main/java/cow/management/cowmanagementservice/database/dao/CowDao.kt:20-21 | `@Update` of a cow by primary key, a no-op for an absent key; partner `TableLemmas.UpdateCowEffect` |
| Tables.DeleteCow | app/src/main/java/cow/management/cowmanagementservice/database/dao/CowDao.kt:23-24 | `@Delete` of a cow with its CASCADE and SET NULL actions; partners `TableLemmas.DeleteCowEffect` and `TableLemmas.DeleteCowSteps` |
| Tables.InsertBirth | app/src/main/java/cow/management/cowmanagementservice/database/dao/BirthDao.kt:17-18 | `@Insert` of a birth; partner `TableLemmas.InsertBirthEffect` |
| Tables.UpdateBirth | app/src/main/java/cow/management/cowmanagementservice/database/dao/BirthDao.kt:20-21 | `@Update` of a birth by primary key; partner `TableLemmas.UpdateBirthEffect` |
| Tables.DeleteBirth | app/src/main/java/cow/management/cowmanagementservice/database/dao/BirthDao.kt:53-54 | `@Delete` of a birth, with SET NULL on its calves; partner `TableLemmas.DeleteBirthEffect` |
| Tables.DeleteBirthsByCowId | app/src/main/java/cow/management/cowmanagementservice/database/dao/BirthDao.kt:23-24 | the `DELETE … WHERE motherId` query, with SET NULL on the calves; partner `TableLemmas.DeleteBirthsByCowIdEffect` |
| Tables.InsertInsemination | app/src/main/java/cow/management/cowmanagementservice/database/dao/ArtificialInseminationDao.kt:16-17 | `@Insert` of an insemination; partner `TableLemmas.InsertInseminationEffect` |
| Tables.UpdateInsemination | app/src/main/java/cow/management/cowmanagementservice/database/dao/ArtificialInseminationDao.kt:19-20 | `@Update` of an insemination by primary key; partner `TableLemmas.UpdateInseminationEffect` |
| Tables.DeleteInsemination | app/src/main/java/cow/management/cowmanagementservice/database/dao/ArtificialInseminationDao.kt:22-23 | `@Delete` of an insemination; partner `TableLemmas.DeleteInseminationEffect` |
| Tables.DeleteInseminationsByCowId | app/src/main/java/cow/management/cowmanagementservice/database/dao/ArtificialInseminationDao.kt:25-26 | the `DELETE … WHERE cowId` query; partner `TableLemmas.DeleteInseminationsByCowIdEffect` |
| Tables.WriteCows | app/src/main/java/cow/management/cowmanagementservice/database/dao/BirthDao.kt:42-47 | the calf `updateCow` calls in turn; partner `TableLemmas.WriteCowsOverwrites` |
| Tables.UpdateBirthAndCalves | app/src/main/java/cow/management/cowmanagementservice/database/dao/BirthDao.kt:39-48 | the committed transaction: birth update, added calves pointed at it, then removed calves cleared; partners `TableLemmas.UpdateBirthAndCalvesEffect` and `TableLemmas.UpdateBirthAndCalvesCalves` |
| Queries.CowById | app/src/main/java/cow/management/cowmanagementservice/database/dao/CowDao.kt:30-31 | `getCowById`; partner `Queries.CowByIdAbsentIff` |
| Queries.CowsByBirthDate | app/src/main/java/cow/management/cowmanagementservice/database/dao/CowDao.kt:37-38 | `getCowsByBirthDate`; partner `Queries.CowsByBirthDateExact` |
| Queries.DetailsOf | app/src/main/java/cow/management/cowmanagementservice/model/CowWithDetails.kt:6-18 | the `@Relation` of a cow to her inseminations (by `cowId`) and births (by `motherId`); partner `Queries.CowDetailsExact` |
| Queries.GetCowWithDetails | app/src/main/java/cow/management/cowmanagementservice/database/dao/CowDao.kt:26-28 | `getCowWithDetails`; partner `Repository.FemaleToMaleDetailsEmpty` |
| Queries.AllCowsWithDetails | app/src/main/java/cow/management/cowmanagementservice/database/dao/CowDao.kt:33-35 | `getAllCowsWithDetails`; partner `Queries.AllCowsWithDetailsOnePerCow` |
| Queries.CalvesOfBirth | app/src/main/java/cow/management/cowmanagementservice/database/dao/BirthDao.kt:50-51 | `getCalvesOfBirth`; partner `Queries.CalvesOfBirthByIds` |
| Queries.WithCalves | app/src/main/java/cow/management/cowmanagementservice/model/BirthWithCalves.kt:6-13 | the `@Relation` of a birth to the cows whose `birthId` names it; partner `Queries.UpdateBirthCalvesView` |
| Queries.BirthsWithCalves | app/src/main/java/cow/management/cowmanagementservice/database/dao/BirthDao.kt:26-28 | `getBirthsWithCalves`: the mother's births, each with its calves; partner `Queries.CalvesAtMostOneBirth` |
| Queries.WithCow | app/src/main/java/cow/management/cowmanagementservice/model/InseminationWithCow.kt:6-13 | the `@Relation` of an insemination to its inseminated cow; partner `Queries.InseminationsBySireJoin` |
| Queries.InseminationsBySire | app/src/main/java/cow/management/cowmanagementservice/database/dao/ArtificialInseminationDao.kt:28-30 | the sire listing; partners `Queries.InseminationsBySireJoin`, `Queries.NoSireNoListing` and `Queries.DeletedCowLeavesSireListings` |
| Repository.Purge | app/src/main/java/cow/management/cowmanagementservice/repository/CowRepository.kt:50-54 | the deletions made when a stored FEMALE changes sex; partner `Repository.PurgeEffect` |
| Repository.SexChangeAsWritten | app/src/main/java/cow/management/cowmanagementservice/repository/CowRepository.kt:47-62 | `updateCowAndHandleSexChange` as written: the purge committed, then the row update, which may be rejected; partners `Repository.AsWrittenKeepsPurgeOfRejectedUpdate` and `Repository.AsWrittenAgreesWhenAccepted` |
| Repository.SexChange | app/src/main/java/cow/management/cowmanagementservice/repository/CowRepository.kt:47-62 | the all-or-nothing sex change; partners `Repository.SexChangeAcceptedIff`, `Repository.SexChangeValid` and `Repository.FemaleSexChangePurges` |
| TableLemmas.InsertCowEffect | app/src/main/java/cow/management/cowmanagementservice/model/Cow.kt:26-27 | an accepted insert keeps the keys valid and stores the cow under an id no stored cow has; for id 0 that id is larger than every stored one; no other row changes |
| TableLemmas.InsertBirthEffect | app/src/main/java/cow/management/cowmanagementservice/model/Birth.kt:20-21 | the same for births: a fresh id, the new row, nothing else changed |
| TableLemmas.InsertInseminationEffect | app/src/main/java/cow/management/cowmanagementservice/model/ArtificialInsemination.kt:26-27 | the same for inseminations |
| TableLemmas.SireSexNotChecked | app/src/main/java/cow/management/cowmanagementservice/model/ArtificialInsemination.kt:17-22 | the store accepts any stored cow as sire, whatever its sex |
| TableLemmas.UpdateCowEffect | app/src/main/java/cow/management/cowmanagementservice/database/dao/CowDao.kt:20-21 | an accepted update replaces the whole row with the record's id and nothing else; with no such row nothing changes; the keys stay valid |
| TableLemmas.UpdateBirthEffect | app/src/main/java/cow/management/cowmanagementservice/database/dao/BirthDao.kt:20-21 | the same for a birth row |
| TableLemmas.UpdateInseminationEffect | app/src/main/java/cow/management/cowmanagementservice/database/dao/ArtificialInseminationDao.kt:19-20 | the same for an insemination row |
| TableLemmas.DeleteCowEffect | app/src/main/java/cow/management/cowmanagementservice/database/dao/CowDao.kt:23-24 | deleting a cow removes her row, exactly her births and the inseminations she received; inseminations naming her as sire survive with no sire; calves of her deleted births survive with no birth; `motherId` is left alone; the keys stay valid |
| TableLemmas.DeleteCowSteps | app/src/main/java/cow/management/cowmanagementservice/model/Birth.kt:11-16 | the cow delete equals its foreign-key actions run in turn (sires cleared, her inseminations, her births, her row), each stage valid |
| TableLemmas.MotherIdMayDangle | app/src/main/java/cow/management/cowmanagementservice/model/Cow.kt:35 | deleting a mother leaves her calf's `motherId` pointing at the deleted cow, in a valid store |
| TableLemmas.DeleteBirthEffect | app/src/main/java/cow/management/cowmanagementservice/model/Cow.kt:17-22 | deleting a birth removes only that row; no cow refers to it afterwards; its calves are kept with only `birthId` cleared |
| TableLemmas.DeleteBirthsByCowIdEffect | app/src/main/java/cow/management/cowmanagementservice/database/dao/BirthDao.kt:23-24 | exactly the births with that mother go; their calves stay with no birth; inseminations are untouched |
| TableLemmas.DeleteInseminationsByCowIdEffect | app/src/main/java/cow/management/cowmanagementservice/database/dao/ArtificialInseminationDao.kt:25-26 | exactly the rows with that `cowId` go; rows where the cow is only the sire stay |
| TableLemmas.DeleteInseminationEffect | app/src/main/java/cow/management/cowmanagementservice/database/dao/ArtificialInseminationDao.kt:22-23 | only the row with that id goes |
| TableLemmas.WriteCowsOverwrites | app/src/main/java/cow/management/cowmanagementservice/database/dao/BirthDao.kt:42-47 | a run of row updates leaves each stored cow as the last record with its id, or as it was |
| TableLemmas.UpdateBirthAndCalvesRows | app/src/main/java/cow/management/cowmanagementservice/database/dao/BirthDao.kt:39-48 | the transaction's result row by row: a removed calf loses its birth, an added one points at it, removals winning |
| TableLemmas.UpdateBirthAndCalvesEffect | app/src/main/java/cow/management/cowmanagementservice/database/dao/BirthDao.kt:39-48 | when accepted: the birth row is the new record; added calves are stored as passed with the birth's id; removed ones (also when added) end with none; other cows, other births and all inseminations are untouched; the keys stay valid |
| TableLemmas.UpdateBirthAndCalvesCalves | app/src/main/java/cow/management/cowmanagementservice/model/BirthWithCalves.kt:8-12 | calf ids of the birth become (old + stored added) − removed; a calf added or removed leaves the calves of every other birth |
| Queries.CowByIdAbsentIff | app/src/main/java/cow/management/cowmanagementservice/database/dao/CowDao.kt:30-31 | `getCowById(k)` is absent exactly when no stored cow has id k, and otherwise is the stored cow with id k |
| Queries.InsertCowRoundTrip | app/src/main/java/cow/management/cowmanagementservice/database/dao/CowDao.kt:17-18 | after an insert, `getCowById` of the new id yields the record with that id, which was absent before; every other id reads as before |
| Queries.InsertInseminationRoundTrip | app/src/main/java/cow/management/cowmanagementservice/database/dao/ArtificialInseminationDao.kt:16-17 | an inserted insemination is found in its sire's listing under its fresh id, paired with its cow |
| Queries.CowsByBirthDateExact | app/src/main/java/cow/management/cowmanagementservice/database/dao/CowDao.kt:37-38 | `getCowsByBirthDate(d)` is exactly the stored cows born on d |
| Queries.InsertedCowIsPotentialCalf | app/src/main/java/cow/management/cowmanagementservice/database/dao/CowDao.kt:37-38 | inserting a cow adds exactly it to the cows born on its date |
| Queries.AllCowsWithDetailsOnePerCow | app/src/main/java/cow/management/cowmanagementservice/database/dao/CowDao.kt:33-35 | `getAllCowsWithDetails` has one entry per stored cow, each with that cow's own details |
| Queries.CowDetailsExact | app/src/main/java/cow/management/cowmanagementservice/model/CowWithDetails.kt:6-18 | the details hold exactly the stored inseminations with her `cowId` and the stored births with her as mother, so rows where she is only the sire are not among them |
| Queries.CalvesAtMostOneBirth | app/src/main/java/cow/management/cowmanagementservice/model/BirthWithCalves.kt:8-12 | a cow is among the calves of at most one birth |
| Queries.CalvesOfBirthByIds | app/src/main/java/cow/management/cowmanagementservice/database/dao/BirthDao.kt:50-51 | `getCalvesOfBirth(k)` is exactly the stored cows whose `birthId` is k |
| Queries.DeletedBirthHasNoCalves | app/src/main/java/cow/management/cowmanagementservice/database/dao/BirthDao.kt:30-37 | after the birth is deleted, no cow is listed as its calf |
| Queries.UpdateBirthCalvesView | app/src/main/java/cow/management/cowmanagementservice/model/BirthWithCalves.kt:6-13 | with disjoint added and removed calves, all stored, the birth's calves become (old calves − removed) + added, each as now stored |
| Queries.InseminationsBySireJoin | app/src/main/java/cow/management/cowmanagementservice/database/dao/ArtificialInseminationDao.kt:28-30 | a sire's listing holds exactly the inseminations naming that sire; each is paired with the inseminated cow (joined on `cowId`), which is always present |
| Queries.NoSireNoListing | app/src/main/java/cow/management/cowmanagementservice/database/dao/ArtificialInseminationDao.kt:29 | an insemination without a sire is in no sire's listing |
| Queries.DeletedCowLeavesSireListings | app/src/main/java/cow/management/cowmanagementservice/model/InseminationWithCow.kt:8-12 | deleting a cow drops her inseminations from every sire's listing and empties her own listing; other listed rows stay |
| Daos.Store.InsertCow | app/src/main/java/cow/management/cowmanagementservice/database/dao/CowDao.kt:17-18 | returns the assigned id exactly when the row is accepted, with the tables then as `Tables.InsertCow` says; otherwise nothing changes |
| Daos.Store.UpdateCow | app/src/main/java/cow/management/cowmanagementservice/database/dao/CowDao.kt:20-21 | accepted exactly when the new row's birth reference is stored; then the tables are as `Tables.UpdateCow` says, else unchanged |
| Daos.Store.DeleteCow | app/src/main/java/cow/management/cowmanagementservice/database/dao/CowDao.kt:23-24 | carries out the cascade step by step and ends exactly as `Tables.DeleteCow` |
| Daos.Store.InsertBirth | app/src/main/java/cow/management/cowmanagementservice/database/dao/BirthDao.kt:17-18 | a birth whose mother is not stored is rejected; otherwise it is stored under the assigned id |
| Daos.Store.UpdateBirth | app/src/main/java/cow/management/cowmanagementservice/database/dao/BirthDao.kt:20-21 | accepted exactly when the new mother is stored; then the birth row is replaced |
| Daos.Store.DeleteBirth | app/src/main/java/cow/management/cowmanagementservice/database/dao/BirthDao.kt:53-54 | the birth delete with its SET NULL on the calves |
| Daos.Store.DeleteBirthsByCowId | app/src/main/java/cow/management/cowmanagementservice/database/dao/BirthDao.kt:23-24 | the mother's births go and their calves are released |
| Daos.Store.DeleteAndDissociate | app/src/main/java/cow/management/cowmanagementservice/database/dao/BirthDao.kt:30-37 | clearing each calf in a loop, then deleting the birth, ends exactly as the plain birth delete |
| Daos.Store.WriteCalves | app/src/main/java/cow/management/cowmanagementservice/database/dao/BirthDao.kt:42-47 | the loop of calf updates succeeds exactly when it does not point a stored cow at an unstored birth; it then ends as the successive updates |
| Daos.Store.UpdateBirthAndCalves | app/src/main/java/cow/management/cowmanagementservice/database/dao/BirthDao.kt:39-48 | commits exactly when `UpdateBirthAndCalvesAccepted` holds, with the tables as `Tables.UpdateBirthAndCalves` says; otherwise it is rolled back |
| Daos.Store.InsertInsemination | app/src/main/java/cow/management/cowmanagementservice/database/dao/ArtificialInseminationDao.kt:16-17 | rejected exactly when the cow or the named sire is not stored (or the id is taken); otherwise stored under the assigned id |
| Daos.Store.UpdateInsemination | app/src/main/java/cow/management/cowmanagementservice/database/dao/ArtificialInseminationDao.kt:19-20 | replaces the row when its cow and sire are stored; a missing row is a no-op |
| Daos.Store.DeleteInsemination | app/src/main/java/cow/management/cowmanagementservice/database/dao/ArtificialInseminationDao.kt:22-23 | removes only that row |
| Daos.Store.DeleteInseminationsByCowId | app/src/main/java/cow/management/cowmanagementservice/database/dao/ArtificialInseminationDao.kt:25-26 | removes exactly the cow's received inseminations |
| Daos.Store.FindCowByEarTag | app/src/main/java/cow/management/cowmanagementservice/ui/viewmodel/CowListViewModel.kt:205 | yields a stored cow carrying the tag, and none exactly when no stored cow carries it |
| Repository.PurgeEffect | app/src/main/java/cow/management/cowmanagementservice/repository/CowRepository.kt:50-54 | the purge keeps the keys valid, deletes no cow, and changes other cows only by releasing the calves of the purged births |
| Repository.SexChangeAcceptedIff | app/src/main/java/cow/management/cowmanagementservice/repository/CowRepository.kt:47-62 | the final row update is rejected exactly when the cow is stored and the record names a birth that is missing, or that is one of her own births purged by the change |
| Repository.SexChangeValid | app/src/main/java/cow/management/cowmanagementservice/repository/CowRepository.kt:47-62 | the sex change keeps every foreign key |
| Repository.FemaleSexChangePurges | app/src/main/java/cow/management/cowmanagementservice/repository/CowRepository.kt:50-54 | after a FEMALE changes sex, no birth has her as mother, no insemination has her as cow, and her row is the new record |
| Repository.SexChangeKeepsSireRows | app/src/main/java/cow/management/cowmanagementservice/repository/CowRepository.kt:53-54 | inseminations where she is not the inseminated cow, including those naming her as sire, all survive unchanged |
| Repository.NoPurgeUnlessFemaleChanges | app/src/main/java/cow/management/cowmanagementservice/repository/CowRepository.kt:49-58 | when the stored cow was MALE or keeps her sex, births and inseminations are unchanged and only her row may change |
| Repository.SexChangeWritesRow | app/src/main/java/cow/management/cowmanagementservice/repository/CowRepository.kt:61 | her row ends as the updated record when the change is accepted |
| Repository.AbsentCowNoChange | app/src/main/java/cow/management/cowmanagementservice/repository/CowRepository.kt:48-61 | with no cow stored under the id, no table changes |
| Repository.PurgedBirthsReleaseCalves | app/src/main/java/cow/management/cowmanagementservice/repository/CowRepository.kt:53 | calves of the purged births survive, with their birth reference cleared |
| Repository.FemaleToMaleDetailsEmpty | app/src/main/java/cow/management/cowmanagementservice/model/CowWithDetails.kt:8-17 | after a FEMALE becomes MALE her details list no inseminations and no births |
| Repository.AsWrittenKeepsPurgeOfRejectedUpdate | app/src/main/java/cow/management/cowmanagementservice/repository/CowRepository.kt:47-62 | as written, a rejected row update leaves the purge applied: a concrete valid store where the births are gone and the cow is still FEMALE |
| Repository.AsWrittenAgreesWhenAccepted | app/src/main/java/cow/management/cowmanagementservice/repository/CowRepository.kt:47-62 | when the update is accepted, the code as written and the all-or-nothing version agree |
| Repository.CowRepository.UpdateCowAndHandleSexChange | app/src/main/java/cow/management/cowmanagementservice/repository/CowRepository.kt:47-62 | reads the cow, purges a FEMALE that changes sex, and rewrites the row; it succeeds exactly when accepted, else everything is rolled back |
| ViewModel.ParseDates | app/src/main/java/cow/management/cowmanagementservice/ui/viewmodel/CowListViewModel.kt:89-95 | the form dates parse exactly when birth and entry dates parse and a non-blank exit date parses; a blank exit date becomes null |
| ViewModel.Edited | app/src/main/java/cow/management/cowmanagementservice/ui/viewmodel/CowListViewModel.kt:119-127 | the edited cow keeps the original id, mother and birth and takes the seven edited fields |
| ViewModel.DuplicateBirthIff | app/src/main/java/cow/management/cowmanagementservice/ui/viewmodel/CowListViewModel.kt:146-147 | the duplicate check over the mother's births finds one exactly when a birth of hers on that date is stored |
| ViewModel.CowListViewModel.constructor | app/src/main/java/cow/management/cowmanagementservice/ui/viewmodel/CowListViewModel.kt:39-43 | no error and no success at start |
| ViewModel.CowListViewModel.AddCow | app/src/main/java/cow/management/cowmanagementservice/ui/viewmodel/CowListViewModel.kt:80-107 | a missing required field sets the fields message and writes nothing; a bad date sets the date message and writes nothing; otherwise the new cow is inserted and success set |
| ViewModel.CowListViewModel.UpdateCow | app/src/main/java/cow/management/cowmanagementservice/ui/viewmodel/CowListViewModel.kt:109-136 | the same validation; then the edited record goes through the all-or-nothing sex change, with success when accepted and the unexpected-error message otherwise |
| ViewModel.CowListViewModel.AddBirth | app/src/main/java/cow/management/cowmanagementservice/ui/viewmodel/CowListViewModel.kt:144-154 | a duplicate date for the mother sets the message and inserts nothing; otherwise the birth is inserted and success set |
| ViewModel.CowListViewModel.UpdateBirth | app/src/main/java/cow/management/cowmanagementservice/ui/viewmodel/CowListViewModel.kt:162-167 | the birth-and-calves transaction, success set when it commits |
| ViewModel.CowListViewModel.GetAndValidateSireId | app/src/main/java/cow/management/cowmanagementservice/ui/viewmodel/CowListViewModel.kt:201-215 | blank tag: no sire, no message; unknown tag: not-found message; a found non-MALE: not-male message; otherwise the id of a stored MALE with that tag |
| ViewModel.CowListViewModel.AddInsemination | app/src/main/java/cow/management/cowmanagementservice/ui/viewmodel/CowListViewModel.kt:169-181 | a failed sire validation writes nothing; a bad date sets the date message and writes nothing; otherwise the insemination is inserted with the validated sire and success set; a stored tag whose cows are all MALE is always accepted |
| ViewModel.CowListViewModel.UpdateInsemination | app/src/main/java/cow/management/cowmanagementservice/ui/viewmodel/CowListViewModel.kt:183-199 | the same validation, with the all-MALE tag always accepted; otherwise the record is rewritten with the new date and sire |
| ViewModel.CowListViewModel.OnOperationCompleted | app/src/main/java/cow/management/cowmanagementservice/ui/viewmodel/CowListViewModel.kt:223-225 | success flag reset, message kept |
| ViewModel.CowListViewModel.OnErrorShown | app/src/main/java/cow/management/cowmanagementservice/ui/viewmodel/CowListViewModel.kt:227-229 | message cleared, success flag kept |
| Screen.FormatEnum | app/src/main/java/cow/management/cowmanagementservice/ui/screen/CowListScreen.kt:569-571 | same length, no underscore, no upper-case letter after the first character, and a letter first is upper case |
| Screen.FormatEnumRoundTrip | app/src/main/java/cow/management/cowmanagementservice/ui/screen/CowListScreen.kt:569-571 | a constant name is recovered from its label |
| Screen.FormatEnumIdempotent | app/src/main/java/cow/management/cowmanagementservice/ui/screen/CowListScreen.kt:569-571 | formatting a label again changes nothing |
| Screen.FormatEnumExample | app/src/main/java/cow/management/cowmanagementservice/ui/screen/CowListScreen.kt:569-571 | `DAIRY_COW` is shown as `Dairy cow` |
| Screen.Without | app/src/main/java/cow/management/cowmanagementservice/ui/screen/CowListScreen.kt:453-454 | `filter { it !in ys }` keeps exactly the elements not in ys, each as often as in xs, and drops the others |
| Screen.RemoveFirst | app/src/main/java/cow/management/cowmanagementservice/ui/screen/CowListScreen.kt:438 | `remove` takes out exactly one occurrence of a listed element (as a multiset), shortening the list by one, and changes nothing when there is none; which occurrence goes is `Screen.RemoveFirstTakesFirst` |
| Screen.RemoveFirstTakesFirst | app/src/main/java/cow/management/cowmanagementservice/ui/screen/CowListScreen.kt:438 | the occurrence `remove` takes out is the first one; the elements before it keep their places and the ones after it move up by one, so the order is kept |
| Screen.Added | app/src/main/java/cow/management/cowmanagementservice/ui/screen/CowListScreen.kt:453 | `calvesInBirth.filter { it !in birthWithCalves.calves }`; its meaning is stated by `Screen.Without` and `Screen.CalfChanges` |
| Screen.Removed | app/src/main/java/cow/management/cowmanagementservice/ui/screen/CowListScreen.kt:454 | `birthWithCalves.calves.filter { it !in calvesInBirth }`; its meaning is stated by `Screen.Without` and `Screen.CalfChanges` |
| Screen.CalfChanges | app/src/main/java/cow/management/cowmanagementservice/ui/screen/CowListScreen.kt:453-454 | added and removed calves are disjoint, and (original − removed) + added is the edited list |
| Screen.SavedCalvesReachStore | app/src/main/java/cow/management/cowmanagementservice/ui/screen/CowListScreen.kt:451-457 | saving a dialog opened on the birth's calves, with current rows listed, makes the birth's calves in the store exactly the calves listed |
| Screen.EditBirthDialog.constructor | app/src/main/java/cow/management/cowmanagementservice/ui/screen/CowListScreen.kt:414-415 | the birth list starts as the birth's calves and the other list empty |
| Screen.EditBirthDialog.RefreshOtherCalves | app/src/main/java/cow/management/cowmanagementservice/ui/screen/CowListScreen.kt:424-427 | the other list becomes the potential calves not in the birth; every potential calf is in one of the two lists |
| Screen.EditBirthDialog.MoveToOtherCalves | app/src/main/java/cow/management/cowmanagementservice/ui/screen/CowListScreen.kt:438 | the birth list loses the first occurrence of the calf, in order (`RemoveFirst`); the calf is appended to the other list; the two lists together are unchanged |
| Screen.EditBirthDialog.MoveToBirth | app/src/main/java/cow/management/cowmanagementservice/ui/screen/CowListScreen.kt:443 | the reverse move: the other list loses the first occurrence of the calf, in order; the calf is appended to the birth list; the union is kept |
| Screen.EditBirthDialog.Save | app/src/main/java/cow/management/cowmanagementservice/ui/screen/CowListScreen.kt:451-457 | with a parseable date: the birth with that date, `Added` (the calves listed now but not at opening) and `Removed` (the reverse), so `Screen.SavedCalvesReachStore` applies to its output |

## Left out

- User interface: the Compose layout of the screen, dialogs and drop-downs, and the date-driven
  reload of potential calves, are presentation only.
- Flows and coroutines: the live queries are modelled as functions of the current tables. These
  are `loadBirthsForCow`, `loadPotentialCalves` and `loadInseminationsBySire`, and the `cows`
  state of the view model; they correspond to `Queries.BirthsWithCalves`,
  `Queries.CowsByBirthDate`, `Queries.InseminationsBySire` and `Queries.AllCowsWithDetails`.
- Concurrency: the model is sequential. A DAO transaction is modelled by rolling back all of its
  statements when one is rejected.
- Date parsing: `DateTimeFormatter` parsing is a function parameter that yields a date or fails.
  The date type converter is not part of this model. Dates are compared only for equality.
- `Breed` and `Category` are opaque; their constants are not part of this model.
- Ids are unbounded integers, so running out of 64-bit AUTOINCREMENT ids is not modelled.
- Result order: query results are sets. The dialog keeps its calf lists as sequences.
- Repository pass-throughs (`insertCow`, `deleteCow`, `insertBirth`, `deleteAndDissociate`,
  `updateBirthAndCalves` and the insemination and read methods) are one-call delegations. The view
  model calls the matching `Daos.Store` method directly.
- View-model deletes (`deleteCow`, `deleteBirth`, `deleteInsemination`) are one-call
  delegations: they are `Daos.Store.DeleteCow`, `Daos.Store.DeleteAndDissociate` and
  `Daos.Store.DeleteInsemination`.
- `getCowByEarTag` is called by the view model but not defined in the repository. It is modelled
  as `Daos.Store.FindCowByEarTag`.
- `getInseminationsWithSireEarTag`, `loadInseminationsForCow` and `getEarTagById` depend on
  repository members that do not exist; they are not part of this model.
- Uncaught failures: `addBirth`, `updateBirth`, `addInsemination` and `updateInsemination` catch
  no store exception. A rejected write there (a foreign-key violation) throws out of
  `viewModelScope.launch`, which has no exception handler, so it reaches the thread's
  uncaught-exception handler and terminates the app instead of showing an error message. The model
  does not represent the crash: in that case it leaves the tables and both flags unchanged (one
  line per member below).
- Screen.EditBirthDialog.Save: a date that does not parse makes `LocalDate.parse` throw in the
  click handler, which terminates the app; `Save` returns None instead.
- ViewModel.CowListViewModel.AddBirth: an insert the store rejects (mother not stored) terminates
  the app in the source; the model leaves the tables and both flags unchanged.
- ViewModel.CowListViewModel.UpdateBirth: a birth-and-calves transaction the store rejects
  terminates the app in the source; the model rolls it back and leaves both flags unchanged.
- Messages are constructors of `ViewModel.Message`. The text of the unexpected-error message is
  not modelled.
- The screen passes arguments that do not match the view model's signatures for `addBirth`,
  `addInsemination` and `updateInsemination`. The view model's own signatures are modelled.
- Screen.FormatEnum: maps case for ASCII letters only. Kotlin's `lowercase()` and `titlecase()`
  cover all of Unicode.
- ViewModel.CowListViewModel.GetAndValidateSireId: ear tags are not unique and the lookup
  returns some cow with the tag. The contract fixes the outcome only when the tag is blank or
  unknown, or when every cow with the tag is MALE. When cows with the tag differ in sex, it says
  only that a refusal names a non-MALE cow with that tag.
- ViewModel.CowListViewModel.AddInsemination: when the sire tag is shared by cows of different
  sex, the contract allows either the not-male refusal or the insert with some stored MALE of that
  tag, for the reason just given. A stored tag whose cows are all MALE is pinned to the insert.
  An insert the store rejects (cow not stored) terminates the app in the source; the model leaves
  the tables and both flags unchanged.
- ViewModel.CowListViewModel.UpdateInsemination: the same as for `AddInsemination`, with the
  rewrite in place of the insert. An update the store rejects (cow not stored) terminates the app
  in the source; the model leaves the tables and both flags unchanged.
- ViewModel.CowListViewModel.UpdateCow: calls the all-or-nothing repository member, so a rejected
  rewrite leaves the store unchanged. With the repository as written, the purge stays committed
  when `updateCow` throws, the exception is caught, and the births and inseminations stay deleted
  (`Repository.SexChangeAsWritten`, see Findings).
- Daos.Store.WriteCalves: the state after a rejected calf update is not stated. Its only caller
  then rolls the transaction back.
- Repository.CowRepository.UpdateCowAndHandleSexChange: models the all-or-nothing behaviour. The
  code as written is modelled by `Repository.SexChangeAsWritten` (see Findings).

## Findings

| source | as written | input that shows it | evidently intended | confidence | as-written member | corrected member |
|---|---|---|---|---|---|---|
| app/src/main/java/cow/management/cowmanagementservice/repository/CowRepository.kt:47-62 | `@Transaction` is on a repository class, not on a Room DAO, so it wraps nothing. The purge is committed before `updateCow`, and that update can still be rejected by the `birthId` foreign key. | Cow 1 is FEMALE with `birthId` 20, and birth 20 has mother 1. The form changes only her sex to MALE. The purge deletes birth 20 and clears her `birthId`. The update still carries `birthId` 20 and is rejected. Birth 20 stays deleted and cow 1 stays FEMALE. | The purge and the update happen together or not at all, so a rejected update changes nothing. | not executed; high that the annotation has no effect outside a DAO | Repository.AsWrittenKeepsPurgeOfRejectedUpdate | Repository.CowRepository.UpdateCowAndHandleSexChange |
