/** Choosing a plan's meals: the toggle shared by the subscription page and
    both meal-selection dialogs (`components/MealSelectionModal.tsx` of the
    client and of the older front end), and the dialogs' save, which turns
    the chosen ids into meal names. */
module MealSelection {
  import opened Wrappers
  import opened Seqs

  /** No id is chosen twice. */
  predicate NoDuplicates(ids: seq<int>) {
    forall i, j :: 0 <= i < j < |ids| ==> ids[i] != ids[j]
  }

  /** A choice a cap allows: no duplicates, and no more ids than the cap
      when there is one. */
  predicate Allowed(ids: seq<int>, cap: Option<int>) {
    NoDuplicates(ids) && (cap.Some? ==> |ids| <= cap.value)
  }

  /** The toggle: a chosen id is dropped; an unchosen one is appended only
      when the cap is known and not yet reached. */
  function Toggle(current: seq<int>, id: int, cap: Option<int>): (r: seq<int>)
    ensures id in current ==> id !in r && forall x :: x in r <==> x in current && x != id
    ensures id !in current && cap.Some? && |current| < cap.value ==> r == current + [id]
    ensures id !in current && (cap.None? || |current| >= cap.value) ==> r == current
  {
    if id in current then Filter(current, (x: int) => x != id)
    else if cap.None? || |current| >= cap.value then current
    else current + [id]
  }

  /** Dropping ids keeps a choice free of duplicates. */
  lemma {:induction false} FilterNoDuplicates(xs: seq<int>, p: int -> bool)
    requires NoDuplicates(xs)
    ensures NoDuplicates(Filter(xs, p))
    decreases |xs|
  {
    if xs != [] {
      var tail := xs[1..];
      assert NoDuplicates(tail) by {
        forall i, j | 0 <= i < j < |tail| ensures tail[i] != tail[j] {
          assert tail[i] == xs[i + 1] && tail[j] == xs[j + 1];
        }
      }
      FilterNoDuplicates(tail, p);
      var rest := Filter(tail, p);
      if p(xs[0]) {
        assert Filter(xs, p) == [xs[0]] + rest;
        forall j | 0 <= j < |rest| ensures rest[j] != xs[0] {
          var k :| 0 <= k < |tail| && tail[k] == rest[j];
          assert tail[k] == xs[k + 1];
        }
      }
    }
  }

  /** The toggle keeps every allowed choice allowed: never a duplicate and
      never past the cap. */
  lemma ToggleKeepsAllowed(current: seq<int>, id: int, cap: Option<int>)
    requires Allowed(current, cap)
    ensures Allowed(Toggle(current, id, cap), cap)
  {
    if id in current {
      FilterNoDuplicates(current, (x: int) => x != id);
    }
  }

  /** Toggling an unchosen id twice, below the cap, restores the choice. */
  lemma ToggleTwice(current: seq<int>, id: int, cap: Option<int>)
    requires id !in current && cap.Some? && |current| < cap.value
    ensures Toggle(Toggle(current, id, cap), id, cap) == current
  {
    var p := (x: int) => x != id;
    FilterConcat(current, [id], p);
    assert Filter([id], p) == [];
  }

  /** A meal of a catalogue, as far as choosing goes. */
  datatype CatalogueMeal = CatalogueMeal(id: int, name: string)

  /** The name of the first catalogue meal with the id, or `''` when there
      is none. */
  function NameOf(catalogue: seq<CatalogueMeal>, id: int): (name: string)
    ensures (forall i :: 0 <= i < |catalogue| ==> catalogue[i].id != id) ==> name == ""
    ensures name != "" ==> CatalogueMeal(id, name) in catalogue
  {
    match First(catalogue, (m: CatalogueMeal) => m.id == id)
    case None => ""
    case Some(m) => m.name
  }

  /** Whether a name is kept by the save (`name !== ''`). */
  predicate NonEmpty(name: string) {
    name != ""
  }

  /** The dialog's save: nothing unless exactly `mealsPerWeek` ids are
      chosen; otherwise their names in choice order, dropping the ids the
      catalogue lacks. */
  function SaveNames(selected: seq<int>, mealsPerWeek: int, catalogue: seq<CatalogueMeal>): (r: Option<seq<string>>)
    ensures r.Some? <==> |selected| == mealsPerWeek
    ensures r.Some? ==> |r.value| <= |selected| && forall i :: 0 <= i < |r.value| ==> r.value[i] != ""
  {
    if |selected| != mealsPerWeek then None
    else Some(Filter(Map(selected, (id: int) => NameOf(catalogue, id)), NonEmpty))
  }

  /** When every chosen id names a meal of the catalogue, the saved names
      are exactly those meals' names, in choice order. */
  lemma SaveNamesAllKnown(selected: seq<int>, catalogue: seq<CatalogueMeal>)
    requires forall i :: 0 <= i < |selected| ==> NameOf(catalogue, selected[i]) != ""
    ensures var r := SaveNames(selected, |selected|, catalogue);
      r.Some? && |r.value| == |selected|
      && forall i :: 0 <= i < |selected| ==> r.value[i] == NameOf(catalogue, selected[i])
  {
  }

  /** A chosen id missing from the catalogue at save time loses its name:
      fewer names are saved than meals were chosen. */
  lemma {:induction false} MissingIdDropped(selected: seq<int>, catalogue: seq<CatalogueMeal>, k: nat)
    requires k < |selected| && forall i :: 0 <= i < |catalogue| ==> catalogue[i].id != selected[k]
    ensures |SaveNames(selected, |selected|, catalogue).value| < |selected|
  {
    var names := Map(selected, (id: int) => NameOf(catalogue, id));
    assert names[k] == "";
    CountMissesOne(names, k);
  }

  /** A list with an empty name keeps fewer names than it has. */
  lemma {:induction false} CountMissesOne(names: seq<string>, k: nat)
    requires k < |names| && names[k] == ""
    ensures |Filter(names, NonEmpty)| < |names|
    decreases |names|
  {
    if k > 0 {
      assert names[1..][k - 1] == "";
      CountMissesOne(names[1..], k - 1);
    }
  }

  /** Opening a dialog starts from an empty choice. */
  function OnOpen(isOpen: bool, current: seq<int>): (r: seq<int>)
    ensures isOpen ==> r == [] && Allowed(r, None)
    ensures !isOpen ==> r == current
  {
    if isOpen then [] else current
  }
}
