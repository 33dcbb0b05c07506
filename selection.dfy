/**
 * The selection registry (`SelectionProvider`): a single `selectedId` cell, `None` when
 * nothing is selected, so at most one entity is ever selected.
 */
module Selection {
  import opened Wrappers

  type Id = string

  /** The state updater `select` hands to React: reselecting the selected id clears the selection. */
  function AfterSelect(prev: Option<Id>, id: Id): (next: Option<Id>)
    ensures next == None <==> prev == Some(id)
    ensures next != None ==> next == Some(id)
  {
    if prev == Some(id) then None else Some(id)
  }

  /** `isSelected(id)` evaluated on a selection state. */
  predicate SelectedIn(s: Option<Id>, id: Id)
  {
    s == Some(id)
  }

  /** The state after a sequence of `select` calls, applied in order. */
  function SelectAll(s: Option<Id>, ids: seq<Id>): Option<Id>
    decreases |ids|
  {
    if ids == [] then s else SelectAll(AfterSelect(s, ids[0]), ids[1..])
  }

  /** Toggle law: selecting the same id twice clears the selection, unless that id was the one selected. */
  lemma ToggleLaw(s: Option<Id>, a: Id)
    ensures AfterSelect(AfterSelect(s, a), a) == if s == Some(a) then s else None
    ensures SelectAll(None, [a, a]) == None
  {
    assert [a, a][1..] == [a];
    assert [a][1..] == [];
    assert SelectAll(None, [a, a]) == SelectAll(Some(a), [a]);
    assert SelectAll(Some(a), [a]) == SelectAll(None, []);
  }

  /** Replacement law: selecting `b` after `a` leaves exactly `b` selected. */
  lemma ReplacementLaw(s: Option<Id>, a: Id, b: Id)
    requires a != b
    ensures var t := AfterSelect(AfterSelect(s, a), b);
      !SelectedIn(t, a) && SelectedIn(t, b)
  {
  }

  /** Single selection: after any sequence of `select` calls, at most one id is selected.
      This is structural: the selection is one `Option` cell, so it holds of every state. */
  lemma AtMostOneSelected(s: Option<Id>, ids: seq<Id>, a: Id, b: Id)
    requires SelectedIn(SelectAll(s, ids), a) && SelectedIn(SelectAll(s, ids), b)
    ensures a == b
  {
  }

  /** After a non-empty sequence of `select` calls, either nothing or the last id named is selected. */
  lemma {:induction false} SelectAllLast(s: Option<Id>, ids: seq<Id>)
    requires ids != []
    ensures SelectAll(s, ids) == None || SelectAll(s, ids) == Some(ids[|ids| - 1])
    decreases |ids|
  {
    if |ids| > 1 {
      SelectAllLast(AfterSelect(s, ids[0]), ids[1..]);
    }
  }

  function Repeat(a: Id, n: nat): (r: seq<Id>)
    ensures |r| == n && forall i :: 0 <= i < n ==> r[i] == a
  {
    if n == 0 then [] else [a] + Repeat(a, n - 1)
  }

  /**
   * Clicking one entity `n > 0` times in a row, starting from any other selection, selects it
   * when `n` is odd and leaves nothing selected when `n` is even.
   */
  lemma {:induction false} RepeatedSelect(s: Option<Id>, a: Id, n: nat)
    requires s != Some(a)
    ensures SelectAll(s, Repeat(a, n)) == if n % 2 == 1 then Some(a) else if n == 0 then s else None
    decreases n
  {
    if n >= 2 {
      var rest := Repeat(a, n - 2);
      assert Repeat(a, n) == [a] + ([a] + rest);
      assert Repeat(a, n)[1..] == [a] + rest;
      assert ([a] + rest)[1..] == rest;
      assert SelectAll(s, Repeat(a, n)) == SelectAll(None, rest);
      RepeatedSelect(None, a, n - 2);
    } else if n == 1 {
      assert Repeat(a, 1)[1..] == [];
    }
  }

  /** The provider's state: the `selectedId` cell and the three operations it exposes. */
  class Registry {
    var selectedId: Option<Id>

    /** `useState(null)`: nothing is selected initially. */
    constructor ()
      ensures selectedId == None
    {
      selectedId := None;
    }

    method Select(id: Id)
      modifies this
      ensures selectedId == AfterSelect(old(selectedId), id)
    {
      selectedId := if selectedId == Some(id) then None else Some(id);
    }

    method Deselect()
      modifies this
      ensures selectedId == None
    {
      selectedId := None;
    }

    /** A pure query, true exactly when `id` is the selected id. */
    function IsSelected(id: Id): (b: bool)
      reads this
      ensures b <==> SelectedIn(selectedId, id)
    {
      selectedId == Some(id)
    }
  }

  /** `useSelection()`: the provider's registry, or the error it throws outside a provider. */
  function UseSelection(context: Option<Registry>): (r: Result<Registry>)
    ensures r.Failure? <==> context.None?
    ensures context.Some? ==> r == Success(context.value)
  {
    match context
    case None => Failure("\U{274C} useSelection must be used within SelectionProvider")
    case Some(registry) => Success(registry)
  }
}
