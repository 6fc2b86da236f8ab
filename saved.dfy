/**
 * The saved-locations list as values (app.js, the save and remove click
 * handlers): an ordered list of locations keyed by display name.
 */
module SavedList {
  import opened Wrappers
  import opened Geocoder

  /** `list.some(l => l.displayName === name)`. */
  predicate HasName(list: seq<Location>, name: string) {
    exists i :: 0 <= i < |list| && list[i].displayName == name
  }

  /** No two entries share a display name. */
  predicate DistinctNames(list: seq<Location>) {
    forall i, j :: 0 <= i < j < |list| ==> list[i].displayName != list[j].displayName
  }

  /** What the save handler reports. */
  datatype SaveStatus = NoCurrentLocation | AlreadySaved | Saved(name: string) {
    function Message(): string {
      match this
      case NoCurrentLocation => "Search for a U.S. location first."
      case AlreadySaved => "That location is already saved."
      case Saved(name) => "Saved " + name + "."
    }
  }

  /** The save handler's status and the list it leaves behind. */
  datatype SaveOutcome = SaveOutcome(status: SaveStatus, list: seq<Location>)

  /**
   * The save handler on values: with no current location, or one whose
   * display name is already listed, the list is unchanged; otherwise the
   * location is appended at the end. Afterwards a current location's name is
   * always listed, and distinct names stay distinct.
   */
  function Save(current: Option<Location>, list: seq<Location>): (r: SaveOutcome)
    ensures r.status == NoCurrentLocation <==> current.None?
    ensures r.status == AlreadySaved <==> current.Some? && HasName(list, current.value.displayName)
    ensures r.status.Saved? ==> r.status.name == current.value.displayName
    ensures r.status.Saved? ==> |r.list| == |list| + 1 && r.list[..|list|] == list && r.list[|list|] == current.value
    ensures !r.status.Saved? ==> r.list == list
    ensures current.Some? ==> HasName(r.list, current.value.displayName)
    ensures DistinctNames(list) ==> DistinctNames(r.list)
  {
    if current.None? then SaveOutcome(NoCurrentLocation, list)
    else if HasName(list, current.value.displayName) then SaveOutcome(AlreadySaved, list)
    else
      var r := list + [current.value];
      assert r[|list|] == current.value;
      SaveOutcome(Saved(current.value.displayName), r)
  }

  /**
   * `list.filter(item => item.displayName !== name)`: the entries kept are
   * exactly those with another name, and none with the name survives.
   */
  function RemoveName(list: seq<Location>, name: string): (r: seq<Location>)
    ensures forall x :: x in r <==> x in list && x.displayName != name
    ensures !HasName(r, name)
    ensures |r| <= |list|
    decreases |list|
  {
    if list == [] then []
    else if list[0].displayName == name then RemoveName(list[1..], name)
    else [list[0]] + RemoveName(list[1..], name)
  }

  /** Removing a name that is not listed changes nothing. */
  lemma {:induction false} RemoveAbsent(list: seq<Location>, name: string)
    requires !HasName(list, name)
    ensures RemoveName(list, name) == list
    decreases |list|
  {
    if list != [] {
      assert !HasName(list[1..], name) by {
        forall i | 0 <= i < |list[1..]| ensures list[1..][i].displayName != name {
          assert list[1..][i] == list[i + 1];
        }
      }
      RemoveAbsent(list[1..], name);
      assert list == [list[0]] + list[1..];
    }
  }

  /**
   * Removing distributes over concatenation, so the survivors keep their
   * relative order.
   */
  lemma {:induction false} RemoveAppend(a: seq<Location>, b: seq<Location>, name: string)
    ensures RemoveName(a + b, name) == RemoveName(a, name) + RemoveName(b, name)
    decreases |a|
  {
    if a == [] {
      assert a + b == b;
    } else {
      assert (a + b)[0] == a[0];
      assert (a + b)[1..] == a[1..] + b;
      RemoveAppend(a[1..], b, name);
    }
  }

  /** Removing keeps the display names distinct. */
  lemma {:induction false} RemoveKeepsDistinct(list: seq<Location>, name: string)
    requires DistinctNames(list)
    ensures DistinctNames(RemoveName(list, name))
    decreases |list|
  {
    if list != [] {
      var tail := list[1..];
      assert DistinctNames(tail) by {
        forall i, j | 0 <= i < j < |tail| ensures tail[i].displayName != tail[j].displayName {
          assert tail[i] == list[i + 1] && tail[j] == list[j + 1];
        }
      }
      RemoveKeepsDistinct(tail, name);
      var rest := RemoveName(tail, name);
      if list[0].displayName != name {
        var r := [list[0]] + rest;
        forall i, j | 0 <= i < j < |r| ensures r[i].displayName != r[j].displayName {
          if i == 0 {
            assert r[j] in tail;
            var k :| 0 <= k < |tail| && tail[k] == r[j];
            assert tail[k] == list[k + 1];
          } else {
            assert r[i] == rest[i - 1] && r[j] == rest[j - 1];
          }
        }
      }
    }
  }

  /** Save and remove are inverse: removing a name just saved restores the list. */
  lemma SaveThenRemove(list: seq<Location>, loc: Location)
    requires !HasName(list, loc.displayName)
    ensures Save(Some(loc), list).status == Saved(loc.displayName)
    ensures RemoveName(Save(Some(loc), list).list, loc.displayName) == list
  {
    var saved := Save(Some(loc), list).list;
    assert saved == list + [loc];
    RemoveAppend(list, [loc], loc.displayName);
    RemoveAbsent(list, loc.displayName);
    assert RemoveName([loc], loc.displayName) == [];
  }
}
