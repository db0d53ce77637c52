/**
 * The time-ordered schedule behind the standard executor: entries due for
 * immediate execution first, in the order they were pushed, then delayed
 * entries by due time, ties kept in the order they were pushed.
 */
module Scheduling {

  /** When an entry is due: at once, or at a point in time (milliseconds). */
  datatype Due = Immediate | At(time: nat)

  /** `a` is due no later than `b`; immediate work precedes every time point. */
  predicate NoLater(a: Due, b: Due)
  {
    a.Immediate? || (b.At? && a.time <= b.time)
  }

  /** A stored operation; `Empty` is the empty function object. */
  datatype Operation<Op> = Empty | NoOp | Run(op: Op)

  datatype Entry<Op> = Entry(operation: Operation<Op>, id: nat, tag: int, due: Due)

  predicate Sorted<Op(==)>(s: seq<Entry<Op>>)
  {
    forall i, j :: 0 <= i < j < |s| ==> NoLater(s[i].due, s[j].due)
  }

  /** Entries due at the same moment appear in the order of their ids. */
  predicate TiesInOrder<Op(==)>(s: seq<Entry<Op>>)
  {
    forall i, j :: 0 <= i < j < |s| && s[i].due == s[j].due ==> s[i].id < s[j].id
  }

  predicate DistinctIds<Op(==)>(s: seq<Entry<Op>>)
  {
    forall i, j :: 0 <= i < j < |s| ==> s[i].id != s[j].id
  }

  predicate IdsBelow<Op(==)>(s: seq<Entry<Op>>, bound: nat)
  {
    forall x :: x in s ==> x.id < bound
  }

  /** How many leading entries are due no later than `due`. */
  function Position<Op(==)>(s: seq<Entry<Op>>, due: Due): (k: nat)
    ensures k <= |s|
    ensures forall i :: 0 <= i < k ==> NoLater(s[i].due, due)
    ensures k < |s| ==> !NoLater(s[k].due, due)
  {
    if s == [] || !NoLater(s[0].due, due) then 0 else 1 + Position(s[1..], due)
  }

  /** Pushes `e` behind every entry due no later than it. */
  function Insert<Op(==)>(s: seq<Entry<Op>>, e: Entry<Op>): (r: seq<Entry<Op>>)
    ensures |r| == |s| + 1
  {
    if s == [] || !NoLater(s[0].due, e.due) then [e] + s
    else [s[0]] + Insert(s[1..], e)
  }

  /** A push adds exactly the new entry. */
  lemma {:induction false} InsertMultiset<Op>(s: seq<Entry<Op>>, e: Entry<Op>)
    ensures multiset(Insert(s, e)) == multiset(s) + multiset{e}
    decreases |s|
  {
    if s != [] && NoLater(s[0].due, e.due) {
      InsertMultiset(s[1..], e);
      assert s == [s[0]] + s[1..];
    }
  }

  function RemoveAt<Op(==)>(s: seq<Entry<Op>>, k: nat): (r: seq<Entry<Op>>)
    requires k < |s|
    ensures |r| == |s| - 1
    ensures multiset(r) == multiset(s) - multiset{s[k]}
    ensures forall i {:trigger r[i]} :: 0 <= i < k ==> r[i] == s[i]
    ensures forall i {:trigger r[i]} :: k <= i < |r| ==> r[i] == s[i + 1]
  {
    assert s == s[..k] + [s[k]] + s[k + 1..];
    s[..k] + s[k + 1..]
  }

  /** The first entry carrying `id`, or `|s|` when there is none. */
  function IndexOfId<Op(==)>(s: seq<Entry<Op>>, id: nat): (k: nat)
    ensures k <= |s|
    ensures k < |s| ==> s[k].id == id
    ensures forall i :: 0 <= i < k ==> s[i].id != id
  {
    if s == [] then 0
    else if s[0].id == id then 0
    else 1 + IndexOfId(s[1..], id)
  }

  /** The first entry that is not immediate, or `|s|` when there is none. */
  function IndexOfDelayed<Op(==)>(s: seq<Entry<Op>>): (k: nat)
    ensures k <= |s|
    ensures k < |s| ==> s[k].due.At?
    ensures forall i :: 0 <= i < k ==> s[i].due.Immediate?
  {
    if s == [] then 0
    else if s[0].due.At? then 0
    else 1 + IndexOfDelayed(s[1..])
  }

  /** The schedule after cancelling by `id`: its first entry with that id removed. */
  function WithoutId<Op(==)>(s: seq<Entry<Op>>, id: nat): (r: seq<Entry<Op>>)
    ensures (forall x :: x in s ==> x.id != id) ==> r == s
    ensures (exists x :: x in s && x.id == id) ==> |r| == |s| - 1
    ensures multiset(r) <= multiset(s)
  {
    var k := IndexOfId(s, id);
    if k < |s| then RemoveAt(s, k) else s
  }

  /** Whether a delayed entry carries `tag`; immediate entries never count. */
  function ScheduledWithTag<Op(==)>(s: seq<Entry<Op>>, tag: int): (r: bool)
    ensures r <==> exists x :: x in s && x.due.At? && x.tag == tag
  {
    if s == [] then false
    else
      assert s == [s[0]] + s[1..];
      (s[0].due.At? && s[0].tag == tag) || ScheduledWithTag(s[1..], tag)
  }

  /** Whether any delayed entry is pending; immediate entries never count. */
  function HasDelayed<Op(==)>(s: seq<Entry<Op>>): (r: bool)
    ensures r <==> exists x :: x in s && x.due.At?
  {
    IndexOfDelayed(s) < |s|
  }

  // ---- Insertion ----

  /** `Insert` is the list insertion at the first entry due later than `e`. */
  lemma {:induction false} InsertAtPosition<Op>(s: seq<Entry<Op>>, e: Entry<Op>)
    ensures Insert(s, e) == s[..Position(s, e.due)] + [e] + s[Position(s, e.due)..]
    decreases |s|
  {
    if s == [] || !NoLater(s[0].due, e.due) {
    } else {
      InsertAtPosition(s[1..], e);
      var k := Position(s[1..], e.due);
      assert s[..k + 1] == [s[0]] + s[1..][..k];
      assert s[k + 1..] == s[1..][k..];
    }
  }

  /** Inserting adds `e` and keeps every entry already there. */
  lemma InsertMembers<Op>(s: seq<Entry<Op>>, e: Entry<Op>)
    ensures forall x :: x in Insert(s, e) <==> x in s || x == e
  {
    InsertMultiset(s, e);
    assert forall x :: x in Insert(s, e) <==> x in multiset(Insert(s, e));
    assert forall x :: x in s <==> x in multiset(s);
  }

  /** Removing the entry at `k` keeps every other entry. */
  lemma RemoveMembers<Op>(s: seq<Entry<Op>>, k: nat)
    requires k < |s|
    ensures forall x :: x in s && x != s[k] ==> x in RemoveAt(s, k)
  {
    assert forall x :: x in RemoveAt(s, k) <==> x in multiset(RemoveAt(s, k));
    assert forall x :: x in s <==> x in multiset(s);
  }

  /** Where each entry of `Insert(s, e)` comes from. */
  lemma InsertIndices<Op>(s: seq<Entry<Op>>, e: Entry<Op>)
    ensures var k := Position(s, e.due); var r := Insert(s, e);
      r[k] == e &&
      (forall i {:trigger r[i]} :: 0 <= i < k ==> r[i] == s[i]) &&
      (forall i {:trigger r[i]} :: k < i < |r| ==> r[i] == s[i - 1])
  {
    InsertAtPosition(s, e);
    SpliceIndices(s, Position(s, e.due), e);
  }

  /** Where each entry of `s` with `e` spliced in at `k` comes from. */
  lemma SpliceIndices<T>(s: seq<T>, k: nat, e: T)
    requires k <= |s|
    ensures var r := s[..k] + [e] + s[k..];
      r[k] == e &&
      (forall i {:trigger r[i]} :: 0 <= i < k ==> r[i] == s[i]) &&
      (forall i {:trigger r[i]} :: k < i < |r| ==> r[i] == s[i - 1])
  {
  }

  /** Any `k` with the defining properties of `Position` is it. */
  lemma {:induction false} PositionUnique<Op>(s: seq<Entry<Op>>, due: Due, k: nat)
    requires k <= |s|
    requires forall i :: 0 <= i < k ==> NoLater(s[i].due, due)
    requires k < |s| ==> !NoLater(s[k].due, due)
    ensures Position(s, due) == k
    decreases |s|
  {
    if s != [] && NoLater(s[0].due, due) {
      PositionUnique(s[1..], due, k - 1);
    }
  }

  /** In a sorted schedule every entry from `Position` on is due strictly later. */
  lemma PositionSplitsSorted<Op>(s: seq<Entry<Op>>, due: Due)
    requires Sorted(s)
    ensures forall j :: Position(s, due) <= j < |s| ==> !NoLater(s[j].due, due)
  {
    var k := Position(s, due);
    forall j | k <= j < |s|
      ensures !NoLater(s[j].due, due)
    {
      if j > k {
        assert NoLater(s[k].due, s[j].due);
      }
    }
  }

  lemma InsertKeepsSorted<Op>(s: seq<Entry<Op>>, e: Entry<Op>)
    requires Sorted(s)
    ensures Sorted(Insert(s, e))
  {
    InsertIndices(s, e);
    PositionSplitsSorted(s, e.due);
    var k := Position(s, e.due);
    var r := Insert(s, e);
    forall i, j | 0 <= i < j < |r|
      ensures NoLater(r[i].due, r[j].due)
    {
      if j < k {
        assert r[i] == s[i] && r[j] == s[j];
      } else if i > k {
        assert r[i] == s[i - 1] && r[j] == s[j - 1];
      } else if j == k {
        assert r[i] == s[i];
      } else if i == k {
        assert r[j] == s[j - 1];
      } else {
        assert r[i] == s[i] && r[j] == s[j - 1];
        assert NoLater(s[i].due, e.due);
      }
    }
  }

  /** Ties stay in push order when the pushed entry's id exceeds every id present. */
  lemma InsertKeepsTiesInOrder<Op>(s: seq<Entry<Op>>, e: Entry<Op>)
    requires Sorted(s) && TiesInOrder(s) && IdsBelow(s, e.id)
    ensures TiesInOrder(Insert(s, e))
  {
    InsertIndices(s, e);
    PositionSplitsSorted(s, e.due);
    var k := Position(s, e.due);
    var r := Insert(s, e);
    forall i, j | 0 <= i < j < |r| && r[i].due == r[j].due
      ensures r[i].id < r[j].id
    {
      if j < k {
        assert r[i] == s[i] && r[j] == s[j];
      } else if i > k {
        assert r[i] == s[i - 1] && r[j] == s[j - 1];
      } else if j == k {
        assert r[i] == s[i] && s[i] in s;
      } else {
        // an entry after `e` is due strictly later, so no tie spans it
        assert false;
      }
    }
  }

  lemma InsertKeepsDistinctIds<Op>(s: seq<Entry<Op>>, e: Entry<Op>, bound: nat)
    requires DistinctIds(s) && IdsBelow(s, bound) && e.id == bound
    ensures DistinctIds(Insert(s, e)) && IdsBelow(Insert(s, e), bound + 1)
  {
    InsertIndices(s, e);
    var k := Position(s, e.due);
    var r := Insert(s, e);
    forall i, j | 0 <= i < j < |r|
      ensures r[i].id != r[j].id
    {
      if i == k {
        assert r[j] == s[j - 1] && s[j - 1] in s;
      } else if j == k {
        assert r[i] == s[i] && s[i] in s;
      } else if j < k {
        assert r[i] == s[i] && r[j] == s[j];
      } else if i > k {
        assert r[i] == s[i - 1] && r[j] == s[j - 1];
      } else {
        assert r[i] == s[i] && r[j] == s[j - 1];
      }
    }
    InsertMembers(s, e);
  }

  /** Immediate entries are served first-in first-out. */
  lemma ImmediateIsFifo<Op>(s: seq<Entry<Op>>, e: Entry<Op>)
    requires Sorted(s) && e.due.Immediate?
    ensures Insert(s, e) == s[..Position(s, Immediate)] + [e] + s[Position(s, Immediate)..]
    ensures Position(Insert(s, e), Immediate) == Position(s, Immediate) + 1
  {
    InsertAtPosition(s, e);
    var n := Position(s, Immediate);
    var r := Insert(s, e);
    PositionUnique(r, Immediate, n + 1);
  }

  /** A delayed entry never overtakes or separates the immediate ones. */
  lemma {:induction false} DelayedKeepsImmediatePrefix<Op>(s: seq<Entry<Op>>, e: Entry<Op>)
    requires e.due.At?
    ensures Position(Insert(s, e), Immediate) == Position(s, Immediate)
    ensures Insert(s, e)[..Position(s, Immediate)] == s[..Position(s, Immediate)]
    decreases |s|
  {
    if s != [] && s[0].due.Immediate? {
      DelayedKeepsImmediatePrefix(s[1..], e);
      ImmediateFrontStep(s, e);
    } else {
      assert Position(s, Immediate) == 0;
      DelayedFront(s, e);
    }
  }

  /** With no immediate entry in front, neither schedule has an immediate prefix. */
  lemma DelayedFront<Op>(s: seq<Entry<Op>>, e: Entry<Op>)
    requires e.due.At? && (s == [] || s[0].due.At?)
    ensures Position(Insert(s, e), Immediate) == 0
  {
    var r := Insert(s, e);
    assert r[0] == e || r[0] == s[0];
  }

  /** An immediate front entry stays in front, so the prefix property carries over from the tail. */
  lemma ImmediateFrontStep<Op>(s: seq<Entry<Op>>, e: Entry<Op>)
    requires e.due.At? && s != [] && s[0].due.Immediate?
    requires Position(Insert(s[1..], e), Immediate) == Position(s[1..], Immediate)
    requires Insert(s[1..], e)[..Position(s[1..], Immediate)] == s[1..][..Position(s[1..], Immediate)]
    ensures Position(Insert(s, e), Immediate) == Position(s, Immediate)
    ensures Insert(s, e)[..Position(s, Immediate)] == s[..Position(s, Immediate)]
  {
    var n := Position(s[1..], Immediate);
    var r := Insert(s[1..], e);
    assert Insert(s, e) == [s[0]] + r;
    assert Position(s, Immediate) == n + 1;
    ImmediateFrontPosition(s[0], r);
    ConsPrefix(s[0], r, s, n);
  }

  /** An immediate entry in front adds one to the length of the immediate prefix. */
  lemma ImmediateFrontPosition<Op>(x: Entry<Op>, r: seq<Entry<Op>>)
    requires x.due.Immediate?
    ensures Position([x] + r, Immediate) == 1 + Position(r, Immediate)
  {
    assert ([x] + r)[1..] == r;
  }

  /** Prefixes that agree after a common first element agree with it. */
  lemma ConsPrefix<T>(x: T, r: seq<T>, s: seq<T>, n: nat)
    requires s != [] && s[0] == x && n <= |r| && n < |s|
    requires r[..n] == s[1..][..n]
    ensures ([x] + r)[..n + 1] == s[..n + 1]
  {
    assert ([x] + r)[..n + 1] == [x] + r[..n];
    assert s[..n + 1] == [s[0]] + s[1..][..n];
  }

  /** Pushing immediate work changes neither `IsScheduled` nor `IsScheduleEmpty`. */
  lemma ImmediateIsNotScheduled<Op>(s: seq<Entry<Op>>, e: Entry<Op>, tag: int)
    requires e.due.Immediate?
    ensures ScheduledWithTag(Insert(s, e), tag) == ScheduledWithTag(s, tag)
    ensures HasDelayed(Insert(s, e)) == HasDelayed(s)
  {
    var r := Insert(s, e);
    InsertMembers(s, e);
    if ScheduledWithTag(r, tag) {
      var x :| x in r && x.due.At? && x.tag == tag;
      assert x in s;
    }
    if ScheduledWithTag(s, tag) {
      var x :| x in s && x.due.At? && x.tag == tag;
      assert x in r;
    }
    if HasDelayed(r) {
      var x :| x in r && x.due.At?;
      assert x in s;
    }
    if HasDelayed(s) {
      var x :| x in s && x.due.At?;
      assert x in r;
    }
  }

  /** A pushed delayed entry is scheduled under its tag. */
  lemma DelayedIsScheduled<Op>(s: seq<Entry<Op>>, e: Entry<Op>)
    requires e.due.At?
    ensures ScheduledWithTag(Insert(s, e), e.tag)
    ensures HasDelayed(Insert(s, e))
  {
    InsertMembers(s, e);
  }

  // ---- Removal ----

  lemma RemoveKeepsOrder<Op>(s: seq<Entry<Op>>, k: nat)
    requires k < |s|
    ensures Sorted(s) ==> Sorted(RemoveAt(s, k))
    ensures TiesInOrder(s) ==> TiesInOrder(RemoveAt(s, k))
    ensures DistinctIds(s) ==> DistinctIds(RemoveAt(s, k))
    ensures forall bound: nat :: IdsBelow(s, bound) ==> IdsBelow(RemoveAt(s, k), bound)
  {
    var r := RemoveAt(s, k);
    assert forall i :: 0 <= i < |r| ==> r[i] == s[if i < k then i else i + 1];
    assert forall x :: x in r ==> x in multiset(s);
  }

  /**
   * With distinct ids, cancelling by `id` removes exactly the entry with that
   * id, if it is still pending, and keeps everything else in order.
   */
  lemma CancelRemovesOnlyThatEntry<Op>(s: seq<Entry<Op>>, id: nat)
    requires DistinctIds(s)
    ensures forall x :: x in WithoutId(s, id) ==> x.id != id
    ensures forall x :: x in s && x.id != id ==> x in WithoutId(s, id)
  {
    var k := IndexOfId(s, id);
    if k < |s| {
      var r := RemoveAt(s, k);
      forall x | x in r
        ensures x.id != id
      {
        var i :| 0 <= i < |r| && r[i] == x;
        if i < k {
          assert r[i] == s[i];
        } else {
          assert r[i] == s[i + 1];
        }
      }
      forall x | x in s && x.id != id
        ensures x in r
      {
        var i :| 0 <= i < |s| && s[i] == x;
        if i < k {
          assert r[i] == x;
        } else {
          assert i != k;
          assert r[i - 1] == x;
        }
      }
    }
  }

  /**
   * The first delayed entry of a sorted schedule is the nearest due one, and
   * among the delayed entries due at the same moment it comes first.
   */
  lemma FirstDelayedIsNearestDue<Op>(s: seq<Entry<Op>>)
    requires Sorted(s) && HasDelayed(s)
    ensures IndexOfDelayed(s) == Position(s, Immediate)
    ensures forall j :: 0 <= j < |s| && s[j].due.At? ==>
      NoLater(s[IndexOfDelayed(s)].due, s[j].due) && IndexOfDelayed(s) <= j
  {
    var k := IndexOfDelayed(s);
    PositionUnique(s, Immediate, k);
  }

  /** Popping the first delayed entry leaves the immediate entries in front as they were. */
  lemma RemovalOfFrontDelayed<Op>(s: seq<Entry<Op>>)
    requires Sorted(s) && HasDelayed(s)
    ensures Position(RemoveAt(s, IndexOfDelayed(s)), Immediate) == Position(s, Immediate)
  {
    var k := IndexOfDelayed(s);
    PositionUnique(s, Immediate, k);
    var r := RemoveAt(s, k);
    PositionUnique(r, Immediate, k);
  }
}
