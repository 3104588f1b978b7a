/**
  Entity selection in the layout editor: flipping one id in or out of a
  list (`toggleSelection`, `toggleArrayItem`), adding all visible ids
  (`selectAllVisible`), and the entity filter behind `filteredEntities`.
 */
module LayoutSelection {
  import opened Strings
  import opened PageModel

  /** `indexOf` on a list of ids: the first index, or -1. */
  function IndexOfItem(s: seq<string>, x: string): (r: int)
    ensures -1 <= r < |s|
    ensures r >= 0 ==> s[r] == x && x !in s[..r]
    ensures r < 0 ==> x !in s
    decreases |s|
  {
    if s == [] then -1
    else if s[0] == x then 0
    else
      var k := IndexOfItem(s[1..], x);
      if k < 0 then -1 else k + 1
  }

  /** The list after a toggle: the first occurrence removed, or the id appended. */
  function Toggled(s: seq<string>, x: string): seq<string> {
    var i := IndexOfItem(s, x);
    if i < 0 then s + [x] else s[..i] + s[i + 1..]
  }

  ghost predicate NoDuplicates(s: seq<string>) {
    forall i, j :: 0 <= i < j < |s| ==> s[i] != s[j]
  }

  /** On a list without duplicates a toggle flips the membership of its id and of no other. */
  lemma ToggleFlips(s: seq<string>, x: string)
    requires NoDuplicates(s)
    ensures NoDuplicates(Toggled(s, x))
    ensures x in Toggled(s, x) <==> x !in s
    ensures forall y :: y != x ==> (y in Toggled(s, x) <==> y in s)
  {
    var i := IndexOfItem(s, x);
    if i >= 0 {
      RemoveAtFlips(s, i);
    } else {
      AppendAbsentFlips(s, x);
    }
  }

  /** Removing the only copy of an id from a list without duplicates drops that id and keeps the rest. */
  lemma RemoveAtFlips(s: seq<string>, i: nat)
    requires NoDuplicates(s) && i < |s|
    ensures var t := s[..i] + s[i + 1..];
      NoDuplicates(t) && s[i] !in t && forall y :: y != s[i] ==> (y in t <==> y in s)
  {
    var t := s[..i] + s[i + 1..];
    assert forall k :: 0 <= k < |t| ==> t[k] == s[if k < i then k else k + 1];
    forall y | y != s[i]
      ensures y in t <==> y in s
    {
      if y in s {
        var k :| 0 <= k < |s| && s[k] == y;
        assert t[if k < i then k else k - 1] == y;
      }
    }
  }

  /** Appending an absent id to a list without duplicates adds that id and keeps the rest. */
  lemma AppendAbsentFlips(s: seq<string>, x: string)
    requires NoDuplicates(s) && x !in s
    ensures NoDuplicates(s + [x]) && x in s + [x] && forall y :: y != x ==> (y in s + [x] <==> y in s)
  {
    assert (s + [x])[|s|] == x;
  }

  /** The multiset of ids loses or gains exactly one copy of the toggled id. */
  lemma ToggleMultiset(s: seq<string>, x: string)
    ensures multiset(Toggled(s, x)) ==
      if x in s then multiset(s) - multiset{x} else multiset(s) + multiset{x}
  {
    var i := IndexOfItem(s, x);
    if i >= 0 {
      assert s == s[..i] + [x] + s[i + 1..];
    }
  }

  /** Toggling an absent id twice gives back exactly the original list. */
  lemma ToggleAbsentTwice(s: seq<string>, x: string)
    requires x !in s
    ensures Toggled(Toggled(s, x), x) == s
  {
    var t := s + [x];
    assert x !in t[..|s|];
    assert IndexOfItem(t, x) == |s|;
  }

  /** `selectAllVisible`: every id of `ids` not yet in the list is appended, in order. */
  function AddMissing(s: seq<string>, ids: seq<string>): seq<string>
    decreases |ids|
  {
    if ids == [] then s
    else
      var t := AddMissing(s, ids[..|ids| - 1]);
      if ids[|ids| - 1] in t then t else t + [ids[|ids| - 1]]
  }

  /**
    Adding the missing ids keeps the old list as a prefix, ends up holding
    exactly the old ids and the new ones, and never introduces a duplicate.
   */
  lemma {:induction false} AddMissingSpec(s: seq<string>, ids: seq<string>)
    ensures |s| <= |AddMissing(s, ids)| && AddMissing(s, ids)[..|s|] == s
    ensures forall y :: y in AddMissing(s, ids) <==> y in s || y in ids
    ensures NoDuplicates(s) ==> NoDuplicates(AddMissing(s, ids))
    decreases |ids|
  {
    if ids != [] {
      var init := ids[..|ids| - 1];
      AddMissingSpec(s, init);
      var t := AddMissing(s, init);
      var r := AddMissing(s, ids);
      assert ids == init + [ids[|ids| - 1]];
      if ids[|ids| - 1] !in t {
        assert r[..|t|] == t;
      }
    }
  }

  /** Appending never moves the first occurrence of an id already present, and a new id is found where it was appended. */
  lemma IndexOfItemAppend(a: seq<string>, b: seq<string>, y: string)
    ensures y in a ==> IndexOfItem(a + b, y) == IndexOfItem(a, y)
    ensures y !in a && b == [y] ==> IndexOfItem(a + b, y) == |a|
  {
    if y in a {
      var k := IndexOfItem(a, y);
      assert (a + b)[k] == y;
    } else if b == [y] {
      assert (a + b)[|a|] == y;
    }
  }

  /** The ids of `t` come in the order of their first occurrence in `ids`. */
  ghost predicate FirstSeenOrder(t: seq<string>, ids: seq<string>) {
    forall i, j :: 0 <= i < j < |t| ==> IndexOfItem(ids, t[i]) < IndexOfItem(ids, t[j])
  }

  /** Appending a new id to `ids` keeps the order of earlier ids, and the new id comes after all of them. */
  lemma FirstSeenOrderExtend(t: seq<string>, ids: seq<string>, x: string)
    requires FirstSeenOrder(t, ids) && x !in ids
    requires forall y :: y in t ==> y in ids
    ensures FirstSeenOrder(t, ids + [x]) && FirstSeenOrder(t + [x], ids + [x])
  {
    forall y | y in t
      ensures IndexOfItem(ids + [x], y) == IndexOfItem(ids, y) < |ids|
    {
      IndexOfItemAppend(ids, [x], y);
    }
    IndexOfItemAppend(ids, [x], x);
    var u := t + [x];
    forall i, j | 0 <= i < j < |u|
      ensures IndexOfItem(ids + [x], u[i]) < IndexOfItem(ids + [x], u[j])
    {
      assert u[i] == t[i] && t[i] in t;
      if j < |t| {
        assert u[j] == t[j] && t[j] in t;
      }
    }
  }

  /** Appending a repeated id to `ids` keeps the order of the ids already there. */
  lemma FirstSeenOrderRepeat(t: seq<string>, ids: seq<string>, x: string)
    requires FirstSeenOrder(t, ids)
    requires forall y :: y in t ==> y in ids
    ensures FirstSeenOrder(t, ids + [x])
  {
    forall y | y in t
      ensures IndexOfItem(ids + [x], y) == IndexOfItem(ids, y)
    {
      IndexOfItemAppend(ids, [x], y);
    }
    forall i, j | 0 <= i < j < |t|
      ensures IndexOfItem(ids + [x], t[i]) < IndexOfItem(ids + [x], t[j])
    {
      assert t[i] in t && t[j] in t;
    }
  }

  /**
    What "select all visible" appends: exactly the ids not already in the
    list, each once, in the order in which they first occur in `ids`.
   */
  lemma {:induction false} AddMissingSuffix(s: seq<string>, ids: seq<string>)
    ensures |s| <= |AddMissing(s, ids)| && AddMissing(s, ids) == s + AddMissing(s, ids)[|s|..]
    ensures forall y :: y in AddMissing(s, ids)[|s|..] <==> y in ids && y !in s
    ensures FirstSeenOrder(AddMissing(s, ids)[|s|..], ids)
    decreases |ids|
  {
    AddMissingSpec(s, ids);
    var r := AddMissing(s, ids);
    assert r == s + r[|s|..];
    if ids != [] {
      var init := ids[..|ids| - 1];
      var x := ids[|ids| - 1];
      assert ids == init + [x];
      AddMissingSuffix(s, init);
      var r0 := AddMissing(s, init);
      var t0 := r0[|s|..];
      if x !in r0 {
        assert r == r0 + [x];
        assert r[|s|..] == t0 + [x];
        FirstSeenOrderExtend(t0, init, x);
      } else {
        FirstSeenOrderRepeat(t0, init, x);
      }
    }
  }

  // ---------------------------------------------------------------- filteredEntities

  /** One search string, matched as a lower-cased substring of the id or the friendly name; empty filters pass all. */
  predicate Visible(e: Entity, search: string, domainFilter: string, areaFilter: string) {
    && (search == "" || Contains(Lower(e.entityId), Lower(search)) || Contains(Lower(e.friendlyName), Lower(search)))
    && (domainFilter == "" || e.domain == domainFilter)
    && (areaFilter == "" || e.areaId == areaFilter)
  }

  /** `filteredEntities`: the visible entities, in their order. */
  function FilterVisible(all: seq<Entity>, search: string, domainFilter: string, areaFilter: string): (r: seq<Entity>)
    ensures |r| <= |all|
    ensures forall e :: e in r <==> e in all && Visible(e, search, domainFilter, areaFilter)
    decreases |all|
  {
    if all == [] then []
    else
      var rest := FilterVisible(all[1..], search, domainFilter, areaFilter);
      assert all == [all[0]] + all[1..];
      if Visible(all[0], search, domainFilter, areaFilter) then [all[0]] + rest else rest
  }

  /**
    The visible entities are found entity by entity: one entity is listed
    exactly when it is visible, and a concatenation gives the two lists in order.
   */
  lemma {:induction false} FilterVisibleSpec(a: seq<Entity>, b: seq<Entity>, search: string, domainFilter: string, areaFilter: string)
    ensures FilterVisible(a + b, search, domainFilter, areaFilter) ==
      FilterVisible(a, search, domainFilter, areaFilter) + FilterVisible(b, search, domainFilter, areaFilter)
    ensures |a| == 1 ==>
      FilterVisible(a, search, domainFilter, areaFilter) == (if Visible(a[0], search, domainFilter, areaFilter) then a else [])
    decreases |a|
  {
    if a == [] {
      assert a + b == b;
    } else {
      assert (a + b)[0] == a[0] && (a + b)[1..] == a[1..] + b;
      FilterVisibleSpec(a[1..], b, search, domainFilter, areaFilter);
      if |a| == 1 {
        assert a[1..] == [];
      }
    }
  }

  function EntityIds(es: seq<Entity>): (ids: seq<string>)
    ensures |ids| == |es| && forall i :: 0 <= i < |es| ==> ids[i] == es[i].entityId
  {
    seq(|es|, i requires 0 <= i < |es| => es[i].entityId)
  }
}
