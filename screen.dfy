/**
 * The two pieces of logic in the cow list screen that are not layout: the display form of enum
 * constant names, and the birth-editing dialog, which keeps two lists of calves (those in the birth
 * and the other cows born that day), lets the user move calves between them, and on saving works
 * out which calves were added to and removed from the birth.
 */
module Screen {
  import opened Records
  import Tables
  import TableLemmas
  import Queries

  // ---- formatEnum ----

  function LowerAscii(ch: char): (r: char) {
    if 'A' <= ch <= 'Z' then (ch as int + 32) as char else ch
  }

  function UpperAscii(ch: char): (r: char) {
    if 'a' <= ch <= 'z' then (ch as int - 32) as char else ch
  }

  /** `replace("_", " ")` followed by `lowercase()`, one character. */
  function Spaced(ch: char): (r: char) {
    LowerAscii(if ch == '_' then ' ' else ch)
  }

  /**
   * `formatEnum`: underscores become spaces, everything is lower-cased, then the first character is
   * title-cased. Case mapping is modelled for ASCII letters.
   */
  function FormatEnum(name: string): (r: string)
    ensures |r| == |name|
    ensures forall i :: 0 <= i < |r| ==> r[i] != '_'
    ensures forall i :: 1 <= i < |r| ==> !('A' <= r[i] <= 'Z')
    ensures |r| > 0 && 'a' <= Spaced(name[0]) <= 'z' ==> 'A' <= r[0] <= 'Z'
  {
    if name == [] then []
    else [UpperAscii(Spaced(name[0]))] + seq(|name| - 1, i requires 0 <= i < |name| - 1 => Spaced(name[i + 1]))
  }

  /** The characters of a Kotlin enum constant name as this app writes them. */
  predicate IsConstantName(name: string) {
    forall i :: 0 <= i < |name| ==> 'A' <= name[i] <= 'Z' || '0' <= name[i] <= '9' || name[i] == '_'
  }

  /** Back from the display form to the constant name: spaces to underscores, upper case. */
  function ConstantName(text: string): (r: string)
    ensures |r| == |text|
  {
    seq(|text|, i requires 0 <= i < |text| => UpperAscii(if text[i] == ' ' then '_' else text[i]))
  }

  /** Formatting loses nothing for constant names: the name can be read back from its label. */
  lemma FormatEnumRoundTrip(name: string)
    requires IsConstantName(name)
    ensures ConstantName(FormatEnum(name)) == name
  {
    var r := ConstantName(FormatEnum(name));
    forall i | 0 <= i < |name| ensures r[i] == name[i] {
      assert 'A' <= name[i] <= 'Z' || '0' <= name[i] <= '9' || name[i] == '_';
    }
  }

  /** Formatting a label again changes nothing. */
  lemma FormatEnumIdempotent(name: string)
    ensures FormatEnum(FormatEnum(name)) == FormatEnum(name)
  {
    var once := FormatEnum(name);
    var twice := FormatEnum(once);
    forall i | 0 <= i < |name| ensures twice[i] == once[i] {
      if i == 0 {
        var c := Spaced(name[0]);
        assert once[0] == UpperAscii(c);
      } else {
        assert once[i] == Spaced(name[i]);
      }
    }
  }

  lemma FormatEnumExample()
    ensures FormatEnum("DAIRY_COW") == "Dairy cow"
  {
  }

  // ---- the calf lists of the birth-editing dialog ----

  /** `xs.filter { it !in ys }`: the elements of `xs` not in `ys`, in their order. */
  function Without<T(==,!new)>(xs: seq<T>, ys: seq<T>): (r: seq<T>)
    ensures forall x :: x in r <==> x in xs && x !in ys
    ensures multiset(r) <= multiset(xs)
    ensures forall x :: multiset(r)[x] == if x in ys then 0 else multiset(xs)[x]
    decreases |xs|
  {
    if xs == [] then []
    else
      var rest := Without(xs[1..], ys);
      assert xs == [xs[0]] + xs[1..];
      if xs[0] in ys then rest else [xs[0]] + rest
  }

  /** `list.remove(x)`: the first occurrence of `x` taken out, or the list unchanged when there is none. */
  function RemoveFirst<T(==,!new)>(xs: seq<T>, x: T): (r: seq<T>)
    ensures multiset(r) == multiset(xs) - multiset{x}
    ensures x in xs ==> |r| == |xs| - 1
    ensures x !in xs ==> r == xs
    decreases |xs|
  {
    if xs == [] then []
    else
      assert xs == [xs[0]] + xs[1..];
      if xs[0] == x then xs[1..] else [xs[0]] + RemoveFirst(xs[1..], x)
  }

  /**
   * The occurrence `remove` takes out is the first one: the elements before it stay where they
   * were, and the elements after it move up by one.
   */
  lemma {:induction false} RemoveFirstTakesFirst<T(!new)>(xs: seq<T>, x: T) returns (i: nat)
    requires x in xs
    ensures i < |xs| && xs[i] == x && forall k :: 0 <= k < i ==> xs[k] != x
    ensures var r := RemoveFirst(xs, x);
      && |r| == |xs| - 1
      && (forall k :: 0 <= k < i ==> r[k] == xs[k])
      && (forall k :: i <= k < |r| ==> r[k] == xs[k + 1])
    decreases |xs|
  {
    if xs[0] == x {
      i := 0;
    } else {
      var tail := xs[1..];
      assert xs == [xs[0]] + tail;
      var j := RemoveFirstTakesFirst(tail, x);
      i := j + 1;
    }
  }

  /** The calves the user put into the birth: listed now, not listed when the dialog opened. */
  function Added(original: seq<Cow>, edited: seq<Cow>): (r: seq<Cow>) {
    Without(edited, original)
  }

  /** The calves the user took out of the birth: listed when the dialog opened, not now. */
  function Removed(original: seq<Cow>, edited: seq<Cow>): (r: seq<Cow>) {
    Without(original, edited)
  }

  /** No calf is both added and removed, and the original list minus the removed plus the added is the edited list. */
  lemma CalfChanges(original: seq<Cow>, edited: seq<Cow>)
    ensures forall c :: !(c in Added(original, edited) && c in Removed(original, edited))
    ensures forall c :: ((c in original && c !in Removed(original, edited)) || c in Added(original, edited))
                        <==> c in edited
  {
  }

  /** A saved edit: the birth with its new date, and the calves to point at it and away from it. */
  datatype BirthEdit = BirthEdit(birth: Birth, added: seq<Cow>, removed: seq<Cow>)

  /** A listing that holds exactly the calves of a birth names exactly the ids of its calves. */
  lemma ListingIds(db: Tables.Db, k: int, listing: seq<Cow>)
    requires Tables.KeysConsistent(db)
    requires forall c :: c in listing <==> c in Queries.CalvesOfBirth(db, k)
    ensures Tables.CalfIds(db, k) == Tables.Ids(listing)
    ensures forall c :: c in listing ==> c.id in db.cows && db.cows[c.id] == c
  {
    Queries.CalvesOfBirthByIds(db, k);
    forall x | x in Tables.CalfIds(db, k) ensures x in Tables.Ids(listing) {
      assert db.cows[x] in listing;
      var i :| 0 <= i < |listing| && listing[i] == db.cows[x];
    }
    forall x | x in Tables.Ids(listing) ensures x in Tables.CalfIds(db, k) {
      var i :| 0 <= i < |listing| && listing[i].id == x;
      assert listing[i] in Queries.CalvesOfBirth(db, k);
    }
  }

  /** Ids of the edited list that were not added were listed before and were not removed. */
  lemma EditedIdsCovered(cows: map<int, Cow>, original: seq<Cow>, edited: seq<Cow>, x: int)
    requires forall c :: c in original ==> c.id in cows && cows[c.id] == c
    requires forall c :: c in edited ==> c.id in cows && cows[c.id] == c
    requires x in Tables.Ids(edited)
    ensures x in (Tables.Ids(original) - Tables.Ids(Removed(original, edited))) + Tables.Ids(Added(original, edited))
  {
    var added, removed := Added(original, edited), Removed(original, edited);
    var i :| 0 <= i < |edited| && edited[i].id == x;
    var e := edited[i];
    if e in original {
      var k :| 0 <= k < |original| && original[k] == e;
      assert x in Tables.Ids(original);
    } else {
      assert e in added;
      var j :| 0 <= j < |added| && added[j] == e;
    }
  }

  /** A position of an element of a list. */
  lemma Position<T>(xs: seq<T>, x: T) returns (i: nat)
    requires x in xs
    ensures i < |xs| && xs[i] == x
  {
    if forall j :: 0 <= j < |xs| ==> xs[j] != x {
      assert false;
    }
    i :| i < |xs| && xs[i] == x;
  }

  /** Every added calf is a listed, stored calf. */
  lemma AddedIdsListed(cows: map<int, Cow>, original: seq<Cow>, edited: seq<Cow>, x: int)
    requires forall c :: c in edited ==> c.id in cows && cows[c.id] == c
    requires x in Tables.Ids(Added(original, edited))
    ensures x in cows && x in Tables.Ids(edited)
  {
    var added := Added(original, edited);
    var i :| 0 <= i < |added| && added[i].id == x;
    assert added[i] in edited;
    var j :| 0 <= j < |edited| && edited[j] == added[i];
  }

  /** A calf listed before and not removed is still listed. */
  lemma KeptIdsListed(original: seq<Cow>, edited: seq<Cow>, x: int)
    requires x in Tables.Ids(original) - Tables.Ids(Removed(original, edited))
    ensures x in Tables.Ids(edited)
  {
    var removed := Removed(original, edited);
    var i :| 0 <= i < |original| && original[i].id == x;
    var j := Position(edited, original[i]);
  }

  /**
   * When every listed calf is a current row, the ids kept, added and removed by an edit make up
   * the ids of the edited list, and the added ids are all stored.
   */
  lemma EditIds(cows: map<int, Cow>, original: seq<Cow>, edited: seq<Cow>)
    requires forall c :: c in original ==> c.id in cows && cows[c.id] == c
    requires forall c :: c in edited ==> c.id in cows && cows[c.id] == c
    ensures var added, removed := Added(original, edited), Removed(original, edited);
      && (Tables.Ids(original) - Tables.Ids(removed)) + Tables.Ids(added) == Tables.Ids(edited)
      && Tables.Ids(added) <= cows.Keys
  {
    var added, removed := Added(original, edited), Removed(original, edited);
    forall x | x in Tables.Ids(added) ensures x in cows && x in Tables.Ids(edited) {
      AddedIdsListed(cows, original, edited, x);
    }
    forall x | x in Tables.Ids(original) - Tables.Ids(removed) ensures x in Tables.Ids(edited) {
      KeptIdsListed(original, edited, x);
    }
    forall x | x in Tables.Ids(edited)
      ensures x in (Tables.Ids(original) - Tables.Ids(removed)) + Tables.Ids(added)
    {
      EditedIdsCovered(cows, original, edited, x);
    }
  }

  /**
   * Saving the dialog with every listed calf a current row, when the dialog opened on the birth's
   * current calves: the birth's calves in the store become exactly the calves listed in the dialog.
   */
  lemma SavedCalvesReachStore(db: Tables.Db, b: Birth, original: seq<Cow>, edited: seq<Cow>)
    requires Tables.Valid(db)
    requires forall c :: c in original <==> c in Queries.CalvesOfBirth(db, b.id)
    requires forall c :: c in edited ==> c.id in db.cows && db.cows[c.id] == c
    ensures var added, removed := Added(original, edited), Removed(original, edited);
      Tables.CalfIds(Tables.UpdateBirthAndCalves(db, b, added, removed), b.id) == Tables.Ids(edited)
  {
    var added, removed := Added(original, edited), Removed(original, edited);
    ListingIds(db, b.id, original);
    EditIds(db.cows, original, edited);
    ChangedIdsDisjoint(db.cows, original, edited);
    TableLemmas.UpdateBirthAndCalvesCalves(db, b, added, removed);
    CalfIdsAfterEdit(Tables.CalfIds(db, b.id), Tables.Ids(added), Tables.Ids(removed), db.cows.Keys, Tables.Ids(edited));
  }

  /** No id is both added and removed when every listed calf is a current row. */
  lemma ChangedIdsDisjoint(cows: map<int, Cow>, original: seq<Cow>, edited: seq<Cow>)
    requires forall c :: c in original ==> c.id in cows && cows[c.id] == c
    requires forall c :: c in edited ==> c.id in cows && cows[c.id] == c
    ensures Tables.Ids(Added(original, edited)) !! Tables.Ids(Removed(original, edited))
  {
  }

  /** The set algebra of the last step: kept plus added ids, with the added ones stored and not removed. */
  lemma CalfIdsAfterEdit(before: set<int>, added: set<int>, removed: set<int>, stored: set<int>, edited: set<int>)
    requires (before - removed) + added == edited
    requires added <= stored && added !! removed
    ensures (before + (added * stored)) - removed == edited
  {
    assert added * stored == added;
  }

  /**
   * The state of the birth-editing dialog: the calves listed when it opened, the calves now in the
   * birth, and the other cows born on the chosen day.
   */
  class EditBirthDialog {
    const original: seq<Cow>
    var calvesInBirth: seq<Cow>
    var otherCalves: seq<Cow>

    constructor (calves: seq<Cow>)
      ensures original == calves && calvesInBirth == calves && otherCalves == []
    {
      original := calves;
      calvesInBirth := calves;
      otherCalves := [];
    }

    /** New potential calves arrived: the other list becomes those not already in the birth. */
    method RefreshOtherCalves(potentialCalves: seq<Cow>)
      modifies this
      ensures calvesInBirth == old(calvesInBirth)
      ensures otherCalves == Without(potentialCalves, calvesInBirth)
      ensures forall c :: c in otherCalves <==> c in potentialCalves && c !in calvesInBirth
      ensures forall c :: c in potentialCalves ==> c in calvesInBirth || c in otherCalves
    {
      otherCalves := [];
      otherCalves := otherCalves + Without(potentialCalves, calvesInBirth);
    }

    /** A click on a calf of the birth moves it to the end of the other list. */
    method MoveToOtherCalves(calf: Cow)
      requires calf in calvesInBirth
      modifies this
      ensures otherCalves == old(otherCalves) + [calf]
      ensures calvesInBirth == RemoveFirst(old(calvesInBirth), calf)
      ensures multiset(calvesInBirth) == old(multiset(calvesInBirth)) - multiset{calf}
      ensures multiset(calvesInBirth) + multiset(otherCalves) == old(multiset(calvesInBirth) + multiset(otherCalves))
    {
      calvesInBirth := RemoveFirst(calvesInBirth, calf);
      otherCalves := otherCalves + [calf];
    }

    /** A click on one of the other calves moves it to the end of the birth's list. */
    method MoveToBirth(calf: Cow)
      requires calf in otherCalves
      modifies this
      ensures calvesInBirth == old(calvesInBirth) + [calf]
      ensures otherCalves == RemoveFirst(old(otherCalves), calf)
      ensures multiset(otherCalves) == old(multiset(otherCalves)) - multiset{calf}
      ensures multiset(calvesInBirth) + multiset(otherCalves) == old(multiset(calvesInBirth) + multiset(otherCalves))
    {
      otherCalves := RemoveFirst(otherCalves, calf);
      calvesInBirth := calvesInBirth + [calf];
    }

    /**
     * Save: the birth with the date typed in, the added and the removed calves; None when the date
     * does not parse.
     */
    method Save(parse: string -> Option<Date>, birth: Birth, date: string) returns (edit: Option<BirthEdit>)
      ensures edit.Some? <==> parse(date).Some?
      ensures edit.Some? ==>
        && edit.value.birth == birth.(date := parse(date).value)
        && (forall c :: c in edit.value.added <==> c in calvesInBirth && c !in original)
        && (forall c :: c in edit.value.removed <==> c in original && c !in calvesInBirth)
      ensures edit.Some? ==>
        edit.value.added == Added(original, calvesInBirth) && edit.value.removed == Removed(original, calvesInBirth)
    {
      var d := parse(date);
      if d.None? {
        return None;
      }
      var added := Added(original, calvesInBirth);
      var removed := Removed(original, calvesInBirth);
      edit := Some(BirthEdit(birth.(date := d.value), added, removed));
    }
  }
}
