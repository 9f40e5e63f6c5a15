/**
 * One user's list of favourite links of one kind, as the add and remove
 * routes scan and update it.
 */
module Favorites {
  import opened Wrappers
  import opened Entities

  /** The duplicate test of the add routes: some link references `target`. */
  function HasTarget(links: seq<Link>, target: int): (r: bool)
    ensures r <==> exists i :: 0 <= i < |links| && links[i].target == target
  {
    if links == [] then false
    else if links[0].target == target then true
    else
      assert forall i :: 0 <= i < |links| - 1 ==> links[1..][i] == links[i + 1];
      HasTarget(links[1..], target)
  }

  /** The position at which the remove routes' scan stops: the first link that references `target`. */
  function FirstIndex(links: seq<Link>, target: int): (r: Option<nat>)
    ensures r.None? <==> !HasTarget(links, target)
    ensures r.Some? ==> r.value < |links| && links[r.value].target == target
    ensures r.Some? ==> forall j :: 0 <= j < r.value ==> links[j].target != target
  {
    if links == [] then None
    else if links[0].target == target then Some(0)
    else
      match FirstIndex(links[1..], target)
      case None => None
      case Some(i) => Some(i + 1)
  }

  /** The list after deleting the link at position `i`; the others keep their order. */
  function RemoveAt(links: seq<Link>, i: nat): (r: seq<Link>)
    requires i < |links|
    ensures |r| == |links| - 1
    ensures forall j :: 0 <= j < i ==> r[j] == links[j]
    ensures forall j :: i <= j < |r| ==> r[j] == links[j + 1]
    ensures multiset(r) == multiset(links) - multiset{links[i]}
  {
    assert links == links[..i] + [links[i]] + links[i + 1..];
    links[..i] + links[i + 1..]
  }

  /** No two links of the list reference the same target. */
  predicate NoDuplicateTargets(links: seq<Link>) {
    forall i, j :: 0 <= i < j < |links| ==> links[i].target != links[j].target
  }

  /** Appending a link whose target is not yet referenced keeps the list free of duplicates. */
  lemma AppendKeepsNoDuplicates(links: seq<Link>, l: Link)
    requires !HasTarget(links, l.target)
    ensures NoDuplicateTargets(links) ==> NoDuplicateTargets(links + [l])
  {
    if !NoDuplicateTargets(links) {
      return;
    }
    forall i, j | 0 <= i < j < |links + [l]|
      ensures (links + [l])[i].target != (links + [l])[j].target
    {
      if j == |links| {
        assert (links + [l])[i] == links[i];
      }
    }
  }

  /** After appending a link, the list references its target. */
  lemma AppendHasTarget(links: seq<Link>, l: Link)
    ensures HasTarget(links + [l], l.target)
  {
    assert (links + [l])[|links|] == l;
  }

  /** Deleting one link keeps the list free of duplicates. */
  lemma RemoveKeepsNoDuplicates(links: seq<Link>, i: nat)
    requires i < |links|
    ensures NoDuplicateTargets(links) ==> NoDuplicateTargets(RemoveAt(links, i))
  {
    if !NoDuplicateTargets(links) {
      return;
    }
    var r := RemoveAt(links, i);
    forall a, b | 0 <= a < b < |r|
      ensures r[a].target != r[b].target
    {
      var a' := if a < i then a else a + 1;
      var b' := if b < i then b else b + 1;
      assert r[a] == links[a'] && r[b] == links[b'];
    }
  }

  /** Every link left after a deletion was in the list before. */
  lemma RemoveKeepsMembers(links: seq<Link>, i: nat, l: Link)
    requires i < |links|
    requires l in RemoveAt(links, i)
    ensures l in links
  {
    assert multiset(RemoveAt(links, i))[l] > 0;
  }

  /**
   * On a list without duplicates, deleting the first link that references
   * `target` leaves no link that references it.
   */
  lemma RemoveFirstClearsTarget(links: seq<Link>, target: int)
    requires NoDuplicateTargets(links)
    requires FirstIndex(links, target).Some?
    ensures !HasTarget(RemoveAt(links, FirstIndex(links, target).value), target)
  {
    var i := FirstIndex(links, target).value;
    var r := RemoveAt(links, i);
    forall j | 0 <= j < |r|
      ensures r[j].target != target
    {
      if j >= i {
        assert r[j] == links[j + 1];
      }
    }
  }

  /**
   * Appending a link whose target was not referenced and then deleting the
   * first link that references that target gives back the original list.
   */
  lemma RemoveUndoesAppend(links: seq<Link>, l: Link)
    requires !HasTarget(links, l.target)
    ensures FirstIndex(links + [l], l.target) == Some(|links|)
    ensures RemoveAt(links + [l], |links|) == links
  {
    AppendHasTarget(links, l);
    assert (links + [l])[..|links|] == links;
  }
}
