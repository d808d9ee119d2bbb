/**
  The P&L list: newest first, one record per (opportunity, completion time), bounded; and the same
  list rebuilt from the append log.
 */
module PnLList {
  import opened Wrappers

  datatype Record = Record(id: string, completedAt: int, netProfit: real, recoveryRequired: bool)

  predicate SameKey(a: Record, b: Record) { a.id == b.id && a.completedAt == b.completedAt }

  ghost predicate NewestFirst(s: seq<Record>) {
    forall i, j :: 0 <= i < j < |s| ==> s[i].completedAt >= s[j].completedAt
  }

  ghost predicate Unique(s: seq<Record>) {
    forall i, j :: 0 <= i < j < |s| ==> !SameKey(s[i], s[j])
  }

  // ---- sorting and inserting ----

  /** Where r goes in a newest-first list: before the records of its own time. */
  function Place(s: seq<Record>, r: Record): (p: seq<Record>)
    ensures |p| == |s| + 1
  {
    if s == [] || s[0].completedAt <= r.completedAt then [r] + s else [s[0]] + Place(s[1..], r)
  }

  /** `sort` by descending completion time, which keeps the order of equal times. */
  function Sort(s: seq<Record>): (p: seq<Record>)
    ensures |p| == |s|
  {
    if s == [] then [] else Place(Sort(s[1..]), s[0])
  }

  /** The list without the first record of r's key. */
  function Without(s: seq<Record>, r: Record): seq<Record> {
    if s == [] then []
    else if SameKey(s[0], r) then s[1..]
    else [s[0]] + Without(s[1..], r)
  }

  function Put(s: seq<Record>, r: Record): seq<Record> { Place(Without(s, r), r) }

  /** The unbounded list after recording a log. */
  function Run(log: seq<Record>): seq<Record> {
    if log == [] then [] else Put(Run(log[..|log| - 1]), log[|log| - 1])
  }

  /** `insertRecord` */
  function InsertBounded(s: seq<Record>, r: Record, cap: nat): seq<Record> {
    FirstN(Sort([r] + Without(s, r)), cap)
  }

  /** The list the service keeps after recording a log. */
  function Bounded(log: seq<Record>, cap: nat): seq<Record> {
    if log == [] then [] else InsertBounded(Bounded(log[..|log| - 1], cap), log[|log| - 1], cap)
  }

  /** `loadPersistedRecords` */
  function Loaded(log: seq<Record>, cap: nat): seq<Record> { Bounded(FirstN(Sort(log), cap), cap) }

  // ---- order and uniqueness ----

  lemma {:induction false} PlaceKeeps(s: seq<Record>, r: Record)
    requires NewestFirst(s)
    ensures NewestFirst(Place(s, r))
  {
    if s != [] && s[0].completedAt > r.completedAt {
      PlaceKeeps(s[1..], r);
      PlaceIsWith(s[1..], r);
      var rest := Place(s[1..], r);
      forall j | 0 <= j < |rest| ensures s[0].completedAt >= rest[j].completedAt {
        assert rest[j] in rest;
      }
    }
  }

  lemma {:induction false} WithoutIsPart(s: seq<Record>, r: Record)
    ensures forall x :: x in Without(s, r) ==> x in s
    ensures Unique(s) ==> forall x :: x in Without(s, r) ==> !SameKey(x, r)
    ensures forall x :: x in s && !SameKey(x, r) ==> x in Without(s, r)
  {
    if s != [] {
      assert s == [s[0]] + s[1..];
      if SameKey(s[0], r) {
        assert Unique(s) ==> forall i :: 0 < i < |s| ==> !SameKey(s[0], s[i]);
      } else {
        WithoutIsPart(s[1..], r);
      }
    }
  }

  lemma {:induction false} WithoutKeepsOrder(s: seq<Record>, r: Record)
    requires NewestFirst(s)
    ensures NewestFirst(Without(s, r))
  {
    if s != [] && !SameKey(s[0], r) {
      WithoutKeepsOrder(s[1..], r);
      WithoutIsPart(s[1..], r);
      var rest := Without(s[1..], r);
      forall j | 0 <= j < |rest| ensures s[0].completedAt >= rest[j].completedAt {
        assert rest[j] in s[1..];
      }
    }
  }

  lemma {:induction false} WithoutKeepsUnique(s: seq<Record>, r: Record)
    requires Unique(s)
    ensures Unique(Without(s, r))
  {
    if s != [] && !SameKey(s[0], r) {
      WithoutKeepsUnique(s[1..], r);
      WithoutIsPart(s[1..], r);
      var rest := Without(s[1..], r);
      forall j | 0 <= j < |rest| ensures !SameKey(s[0], rest[j]) {
        assert rest[j] in s[1..];
      }
    }
  }

  lemma {:induction false} PlaceUnique(s: seq<Record>, r: Record)
    requires Unique(s) && forall i :: 0 <= i < |s| ==> !SameKey(s[i], r)
    ensures Unique(Place(s, r))
  {
    if s != [] && s[0].completedAt > r.completedAt {
      PlaceUnique(s[1..], r);
      PlaceIsWith(s[1..], r);
      var rest := Place(s[1..], r);
      forall j | 0 <= j < |rest| ensures !SameKey(s[0], rest[j]) {
        assert rest[j] in rest;
      }
    }
  }

  lemma {:induction false} PlaceIsWith(s: seq<Record>, r: Record)
    ensures forall x :: x in Place(s, r) <==> x == r || x in s
  {
    if s != [] && s[0].completedAt > r.completedAt {
      PlaceIsWith(s[1..], r);
      assert s == [s[0]] + s[1..];
    }
  }

  lemma PutKeeps(s: seq<Record>, r: Record)
    requires NewestFirst(s) && Unique(s)
    ensures NewestFirst(Put(s, r)) && Unique(Put(s, r))
    ensures forall x :: x in Put(s, r) <==> x == r || (x in s && !SameKey(x, r))
  {
    WithoutIsPart(s, r);
    WithoutKeepsOrder(s, r);
    WithoutKeepsUnique(s, r);
    PlaceKeeps(Without(s, r), r);
    PlaceUnique(Without(s, r), r);
    PlaceIsWith(Without(s, r), r);
  }

  /** The list is sorted and holds one record per key. */
  lemma {:induction false} RunKeeps(log: seq<Record>)
    ensures NewestFirst(Run(log)) && Unique(Run(log))
    ensures forall x :: x in Run(log) ==> x in log
  {
    if log != [] {
      RunKeeps(log[..|log| - 1]);
      PutKeeps(Run(log[..|log| - 1]), log[|log| - 1]);
    }
  }

  /** Line i is the last one logged under its key. */
  ghost predicate LastOfKey(log: seq<Record>, i: nat)
    requires i < |log|
  {
    forall j :: i < j < |log| ==> !SameKey(log[j], log[i])
  }

  ghost predicate IsLastOfKey(log: seq<Record>, x: Record) {
    exists i :: 0 <= i < |log| && log[i] == x && LastOfKey(log, i)
  }

  lemma LastOfKeyPush(log: seq<Record>, r: Record, x: Record)
    requires IsLastOfKey(log, x) && !SameKey(x, r)
    ensures IsLastOfKey(log + [r], x)
  {
    var i :| 0 <= i < |log| && log[i] == x && LastOfKey(log, i);
    assert (log + [r])[i] == x && LastOfKey(log + [r], i);
  }

  lemma LastOfKeyPop(log: seq<Record>, r: Record, x: Record)
    requires IsLastOfKey(log + [r], x) && x != r
    ensures IsLastOfKey(log, x) && !SameKey(x, r)
  {
    var longer := log + [r];
    var i :| 0 <= i < |longer| && longer[i] == x && LastOfKey(longer, i);
    assert longer[|log|] == r;
    forall j | i < j < |log| ensures !SameKey(log[j], log[i]) {
      assert longer[j] == log[j];
    }
    assert log[i] == x && LastOfKey(log, i);
  }

  lemma NewestIsLastOfKey(log: seq<Record>, r: Record)
    ensures IsLastOfKey(log + [r], r)
  {
    assert (log + [r])[|log|] == r && LastOfKey(log + [r], |log|);
  }

  /** And for each logged key that record is the last one logged under it. */
  lemma {:induction false} RunHoldsLast(log: seq<Record>, x: Record)
    ensures x in Run(log) <==> IsLastOfKey(log, x)
  {
    if log != [] {
      var before, r := log[..|log| - 1], log[|log| - 1];
      assert log == before + [r];
      RunKeeps(before);
      PutKeeps(Run(before), r);
      RunHoldsLast(before, x);
      if x == r {
        NewestIsLastOfKey(before, r);
      } else if IsLastOfKey(log, x) {
        LastOfKeyPop(before, r, x);
      } else if x in Run(log) {
        LastOfKeyPush(before, r, x);
      }
    }
  }

  lemma {:induction false} SortSorts(s: seq<Record>)
    ensures NewestFirst(Sort(s))
  {
    if s != [] {
      SortSorts(s[1..]);
      PlaceKeeps(Sort(s[1..]), s[0]);
    }
  }

  lemma {:induction false} SortSorted(s: seq<Record>)
    requires NewestFirst(s)
    ensures Sort(s) == s
  {
    if s != [] {
      SortSorted(s[1..]);
      assert s == [s[0]] + s[1..];
    }
  }

  // ---- the bounded list is the head of the unbounded one ----

  lemma FirstNCons(x: Record, t: seq<Record>, n: nat)
    requires n > 0
    ensures FirstN([x] + t, n) == [x] + FirstN(t, n - 1)
  {
  }

  lemma {:induction false} WithoutFirstN(s: seq<Record>, r: Record, n: nat)
    ensures FirstN(Without(FirstN(s, n + 1), r), n) == FirstN(Without(s, r), n)
  {
    if s != [] && n > 0 {
      var x, t := s[0], s[1..];
      assert s == [x] + t;
      FirstNCons(x, t, n + 1);
      var head := FirstN(t, n);
      assert ([x] + head)[1..] == head;
      if !SameKey(x, r) {
        WithoutFirstN(t, r, n - 1);
        FirstNCons(x, Without(head, r), n);
        FirstNCons(x, Without(t, r), n);
      }
    }
  }

  lemma {:induction false} PutFirstN(s: seq<Record>, r: Record, n: nat)
    requires NewestFirst(s) && n > 0
    ensures FirstN(Put(FirstN(s, n), r), n) == FirstN(Put(s, r), n)
  {
    if s != [] {
      var x, t := s[0], s[1..];
      assert s == [x] + t;
      FirstNCons(x, t, n);
      var head := FirstN(t, n - 1);
      if x.completedAt > r.completedAt {
        NewerStays(x, t, r);
        NewerStays(x, head, r);
        FirstNCons(x, Put(t, r), n);
        FirstNCons(x, Put(head, r), n);
        if n > 1 {
          PutFirstN(t, r, n - 1);
        }
      } else {
        AllOlder(s, r);
        AllOlder([x] + head, r);
        FirstNCons(r, Without(s, r), n);
        FirstNCons(r, Without([x] + head, r), n);
        WithoutFirstN(s, r, n - 1);
      }
    }
  }

  lemma NewerStays(x: Record, t: seq<Record>, r: Record)
    requires x.completedAt > r.completedAt
    ensures Put([x] + t, r) == [x] + Put(t, r)
  {
    assert ([x] + t)[1..] == t;
    assert ([x] + Without(t, r))[1..] == Without(t, r);
  }

  lemma {:induction false} AllOlder(s: seq<Record>, r: Record)
    requires NewestFirst(s) && s != [] && s[0].completedAt <= r.completedAt
    ensures Put(s, r) == [r] + Without(s, r)
  {
    if SameKey(s[0], r) && |s| > 1 {
      assert s[1].completedAt <= s[0].completedAt;
    }
  }

  /** The service's list is the first `cap` entries of the same run on an unbounded list. */
  lemma {:induction false} BoundedIsHead(log: seq<Record>, cap: nat)
    requires cap > 0
    ensures Bounded(log, cap) == FirstN(Run(log), cap)
  {
    if log != [] {
      var before, r := log[..|log| - 1], log[|log| - 1];
      BoundedIsHead(before, cap);
      RunKeeps(before);
      var head := FirstN(Run(before), cap);
      assert NewestFirst(head);
      WithoutKeepsOrder(head, r);
      SortSorted(Without(head, r));
      assert ([r] + Without(head, r))[1..] == Without(head, r);
      PutFirstN(Run(before), r, cap);
    }
  }

  /** So it is sorted, unique and bounded after every run. */
  lemma {:induction false} BoundedKeeps(log: seq<Record>, cap: nat)
    requires cap > 0
    ensures NewestFirst(Bounded(log, cap)) && Unique(Bounded(log, cap)) && |Bounded(log, cap)| <= cap
  {
    BoundedIsHead(log, cap);
    RunKeeps(log);
  }
}
