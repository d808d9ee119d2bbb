/**
  Reloading the P&L log: when the list rebuilt from the log is the list held in memory. The argument
  looks at the records of a window of completion times, which sorting, recording and reloading treat
  independently of the others.
 */
module PnLReload {
  import opened Wrappers
  import opened PnLList

  /** Completion times from `lo` to `hi`, either end possibly open. */
  datatype Window = Window(lo: Option<int>, hi: Option<int>)

  predicate In(w: Window, t: int) { (w.lo.Some? ==> w.lo.value <= t) && (w.hi.Some? ==> t <= w.hi.value) }

  function Keep(s: seq<Record>, w: Window): seq<Record> {
    if s == [] then []
    else if In(w, s[0].completedAt) then [s[0]] + Keep(s[1..], w)
    else Keep(s[1..], w)
  }

  function At(t: int): Window { Window(Some(t), Some(t)) }

  function Above(t: int): Window { Window(Some(t + 1), None) }

  function From(t: int): Window { Window(Some(t), None) }

  function Below(t: int): Window { Window(None, Some(t - 1)) }

  // ---- windows commute with everything the service does ----

  lemma {:induction false} KeepPush(s: seq<Record>, r: Record, w: Window)
    ensures Keep(s + [r], w) == Keep(s, w) + if In(w, r.completedAt) then [r] else []
  {
    if s != [] {
      assert (s + [r])[1..] == s[1..] + [r];
      KeepPush(s[1..], r, w);
    }
  }

  lemma {:induction false} KeepIn(s: seq<Record>, w: Window)
    ensures forall i :: 0 <= i < |Keep(s, w)| ==> In(w, Keep(s, w)[i].completedAt) && Keep(s, w)[i] in s
  {
    if s != [] {
      KeepIn(s[1..], w);
    }
  }

  lemma {:induction false} KeepPlace(s: seq<Record>, r: Record, w: Window)
    requires NewestFirst(s)
    ensures Keep(Place(s, r), w) == if In(w, r.completedAt) then Place(Keep(s, w), r) else Keep(s, w)
  {
    if s != [] && s[0].completedAt > r.completedAt {
      KeepPlace(s[1..], r, w);
      assert Place(s, r)[1..] == Place(s[1..], r);
      assert ([s[0]] + Keep(s[1..], w))[1..] == Keep(s[1..], w);
    } else {
      assert ([r] + s)[1..] == s;
      KeepIn(s, w);
      KeptAreOlder(s, r, w);
    }
  }

  lemma {:induction false} KeptAreOlder(s: seq<Record>, r: Record, w: Window)
    requires NewestFirst(s) && (s != [] ==> s[0].completedAt <= r.completedAt)
    ensures Place(Keep(s, w), r) == [r] + Keep(s, w)
  {
    KeepIn(s, w);
    if Keep(s, w) != [] {
      var i :| 0 <= i < |s| && s[i] == Keep(s, w)[0];
    }
  }

  lemma {:induction false} KeepWithout(s: seq<Record>, r: Record, w: Window)
    ensures Keep(Without(s, r), w) == if In(w, r.completedAt) then Without(Keep(s, w), r) else Keep(s, w)
  {
    if s != [] && !SameKey(s[0], r) {
      KeepWithout(s[1..], r, w);
      assert Without(s, r)[1..] == Without(s[1..], r);
      assert ([s[0]] + Keep(s[1..], w))[1..] == Keep(s[1..], w);
    } else if s != [] {
      assert ([s[0]] + Keep(s[1..], w))[1..] == Keep(s[1..], w);
    }
  }

  lemma {:induction false} KeepRun(log: seq<Record>, w: Window)
    ensures Keep(Run(log), w) == Run(Keep(log, w))
  {
    if log != [] {
      var before, r := log[..|log| - 1], log[|log| - 1];
      KeepRun(before, w);
      RunKeeps(before);
      WithoutKeepsOrder(Run(before), r);
      KeepPlace(Without(Run(before), r), r, w);
      KeepWithout(Run(before), r, w);
      assert log == before + [r];
      KeepPush(before, r, w);
      if In(w, r.completedAt) {
        assert (Keep(before, w) + [r])[..|Keep(before, w)|] == Keep(before, w);
      } else {
        assert Keep(log, w) == Keep(before, w);
      }
    }
  }

  lemma {:induction false} KeepSort(s: seq<Record>, w: Window)
    ensures Keep(Sort(s), w) == Sort(Keep(s, w))
  {
    if s != [] {
      KeepSort(s[1..], w);
      SortSorts(s[1..]);
      KeepPlace(Sort(s[1..]), s[0], w);
      assert ([s[0]] + Keep(s[1..], w))[1..] == Keep(s[1..], w);
    }
  }

  /** Sorting keeps the log order of equal times. */
  lemma {:induction false} SortIsStable(s: seq<Record>, t: int)
    ensures Keep(Sort(s), At(t)) == Keep(s, At(t))
  {
    KeepSort(s, At(t));
    KeepIn(s, At(t));
    SortSorted(Keep(s, At(t)));
  }

  // ---- sorted lists are decided by their windows ----

  lemma {:induction false} KeepAll(s: seq<Record>, w: Window)
    requires forall i :: 0 <= i < |s| ==> In(w, s[i].completedAt)
    ensures Keep(s, w) == s
  {
    if s != [] {
      KeepAll(s[1..], w);
      assert s == [s[0]] + s[1..];
    }
  }

  lemma {:induction false} KeepNone(s: seq<Record>, w: Window)
    requires forall i :: 0 <= i < |s| ==> !In(w, s[i].completedAt)
    ensures Keep(s, w) == []
  {
    if s != [] {
      KeepNone(s[1..], w);
    }
  }

  lemma {:induction false} SortedSplits(s: seq<Record>, t: int)
    requires NewestFirst(s)
    ensures s == Keep(s, Above(t)) + Keep(s, At(t)) + Keep(s, Below(t))
  {
    FromSplits(s, t);
    BelowSplits(s, t);
  }

  lemma {:induction false} BelowSplits(s: seq<Record>, t: int)
    requires NewestFirst(s)
    ensures s == Keep(s, From(t)) + Keep(s, Below(t))
  {
    if s != [] {
      assert s == [s[0]] + s[1..];
      if s[0].completedAt < t {
        KeepNone(s, From(t));
        KeepAll(s, Below(t));
      } else {
        BelowSplits(s[1..], t);
      }
    }
  }

  lemma {:induction false} FromSplits(s: seq<Record>, t: int)
    requires NewestFirst(s)
    ensures Keep(s, From(t)) == Keep(s, Above(t)) + Keep(s, At(t))
  {
    if s != [] {
      if s[0].completedAt <= t {
        KeepNone(s, Above(t));
        FromIsAt(s, t);
      } else {
        FromSplits(s[1..], t);
      }
    }
  }

  lemma {:induction false} FromIsAt(s: seq<Record>, t: int)
    requires forall i :: 0 <= i < |s| ==> s[i].completedAt <= t
    ensures Keep(s, From(t)) == Keep(s, At(t))
  {
    if s != [] {
      FromIsAt(s[1..], t);
    }
  }

  lemma KeepHead(s: seq<Record>)
    ensures s != [] ==> Keep(s, At(s[0].completedAt)) != []
  {
  }

  lemma {:induction false} SortedDecided(a: seq<Record>, b: seq<Record>)
    requires NewestFirst(a) && NewestFirst(b)
    requires forall t :: Keep(a, At(t)) == Keep(b, At(t))
    ensures a == b
    decreases |a|
  {
    KeepHead(b);
    if a != [] {
      var t := a[0].completedAt;
      HeadOfWindow(a, b, t);
      HeadOfWindow(b, a, b[0].completedAt);
      assert Keep(a, At(t))[0] == a[0] && Keep(b, At(t))[0] == b[0];
      forall u ensures Keep(a[1..], At(u)) == Keep(b[1..], At(u)) {
        assert Keep(a, At(u)) == Keep(b, At(u));
        assert Keep(a, At(u)) == (if u == t then [a[0]] else []) + Keep(a[1..], At(u));
        assert Keep(b, At(u)) == (if u == t then [b[0]] else []) + Keep(b[1..], At(u));
        var n := if u == t then 1 else 0;
        assert Keep(a[1..], At(u)) == Keep(a, At(u))[n..] == Keep(b, At(u))[n..] == Keep(b[1..], At(u));
      }
      SortedDecided(a[1..], b[1..]);
      assert a == [a[0]] + a[1..] && b == [b[0]] + b[1..];
    }
  }

  lemma {:induction false} HeadOfWindow(a: seq<Record>, b: seq<Record>, t: int)
    requires a != [] && a[0].completedAt == t && NewestFirst(b) && Keep(a, At(t)) == Keep(b, At(t))
    ensures b != [] && b[0].completedAt >= t
  {
    KeepIn(b, At(t));
    var x := Keep(b, At(t))[0];
    var i :| 0 <= i < |b| && b[i] == x;
  }

  // ---- reloading ----

  /** Recording the log in sorted order gives the same list as recording it as written. */
  lemma {:induction false} SortedRun(log: seq<Record>)
    ensures Run(Sort(log)) == Run(log)
  {
    RunKeeps(log);
    RunKeeps(Sort(log));
    forall t ensures Keep(Run(Sort(log)), At(t)) == Keep(Run(log), At(t)) {
      KeepRun(Sort(log), At(t));
      KeepRun(log, At(t));
      SortIsStable(log, t);
    }
    SortedDecided(Run(Sort(log)), Run(log));
  }

  lemma {:induction false} RunLength(log: seq<Record>)
    ensures |Run(log)| <= |log|
  {
    if log != [] {
      RunLength(log[..|log| - 1]);
      WithoutLength(Run(log[..|log| - 1]), log[|log| - 1]);
    }
  }

  lemma {:induction false} WithoutLength(s: seq<Record>, r: Record)
    ensures |Without(s, r)| <= |s|
    ensures (forall i :: 0 <= i < |s| ==> !SameKey(s[i], r)) ==> Without(s, r) == s
  {
    if s != [] {
      WithoutLength(s[1..], r);
      assert s == [s[0]] + s[1..];
    }
  }

  lemma {:induction false} LoadedIsRun(log: seq<Record>, cap: nat)
    requires cap > 0
    ensures Loaded(log, cap) == Run(FirstN(Sort(log), cap))
  {
    BoundedIsHead(FirstN(Sort(log), cap), cap);
    RunLength(FirstN(Sort(log), cap));
  }

  /** A log of at most `cap` lines reloads to the list in memory, repeated keys and equal times included. */
  lemma {:induction false} ShortLogReloads(log: seq<Record>, cap: nat)
    requires cap > 0 && |log| <= cap
    ensures Loaded(log, cap) == Bounded(log, cap)
  {
    LoadedIsRun(log, cap);
    SortedRun(log);
    BoundedIsHead(log, cap);
    RunLength(log);
  }

  lemma {:induction false} UniqueRun(log: seq<Record>)
    requires Unique(log)
    ensures |Run(log)| == |log|
  {
    if log != [] {
      var before, r := log[..|log| - 1], log[|log| - 1];
      UniqueRun(before);
      RunKeeps(before);
      forall i | 0 <= i < |Run(before)| ensures !SameKey(Run(before)[i], r) {
        assert Run(before)[i] in before;
        var j :| 0 <= j < |before| && before[j] == Run(before)[i];
        assert !SameKey(log[j], log[|log| - 1]);
      }
      WithoutLength(Run(before), r);
    }
  }

  /** Pairwise different records: two lines for one opportunity and time may still differ elsewhere. */
  ghost predicate Different(s: seq<Record>) {
    forall i, j :: 0 <= i < j < |s| ==> s[i] != s[j]
  }

  /** The list in memory has no more records in a window than the sorted log, and none only if that has none. */
  lemma {:induction false} WindowSizes(log: seq<Record>, w: Window)
    ensures |Keep(Run(log), w)| <= |Keep(Sort(log), w)|
    ensures Keep(Sort(log), w) != [] ==> Keep(Run(log), w) != []
  {
    KeepRun(log, w);
    KeepSort(log, w);
    RunLength(Keep(log, w));
  }

  /** Every logged key is in the list. */
  lemma {:induction false} RunHasKey(log: seq<Record>, i: nat) returns (k: nat)
    requires i < |log|
    ensures k < |Run(log)| && SameKey(Run(log)[k], log[i])
  {
    var before, r := log[..|log| - 1], log[|log| - 1];
    RunKeeps(before);
    if SameKey(log[i], r) {
      k := PutHas(Run(before), r, r);
    } else {
      k := RunHasKey(before, i);
      k := PutHas(Run(before), r, Run(before)[k]);
    }
  }

  lemma PutHas(s: seq<Record>, r: Record, x: Record) returns (k: nat)
    requires NewestFirst(s) && Unique(s) && (x == r || (x in s && !SameKey(x, r)))
    ensures k < |Put(s, r)| && Put(s, r)[k] == x
  {
    PutKeeps(s, r);
    assert x in Put(s, r);
    k :| 0 <= k < |Put(s, r)| && Put(s, r)[k] == x;
  }

  /** A repeated key makes the list shorter than the log. */
  lemma {:induction false} RepeatedRun(log: seq<Record>)
    requires !Unique(log)
    ensures |Run(log)| < |log|
  {
    var before, r := log[..|log| - 1], log[|log| - 1];
    RunLength(before);
    WithoutLength(Run(before), r);
    if !Unique(before) {
      RepeatedRun(before);
    } else {
      var i, j :| 0 <= i < j < |log| && SameKey(log[i], log[j]);
      var k := RunHasKey(before, i);
      WithoutShorter(Run(before), r, k);
    }
  }

  lemma {:induction false} WithoutShorter(s: seq<Record>, r: Record, k: nat)
    requires k < |s| && SameKey(s[k], r)
    ensures |Without(s, r)| == |s| - 1
  {
    if !SameKey(s[0], r) {
      WithoutShorter(s[1..], r, k - 1);
    }
  }

  lemma {:induction false} SortedPrefix(s: seq<Record>, k: nat)
    requires NewestFirst(s) && 0 < k <= |s| && (k < |s| ==> s[k - 1].completedAt > s[k].completedAt)
    ensures Keep(s, From(s[k - 1].completedAt)) == s[..k]
  {
    var w := From(s[k - 1].completedAt);
    var head, tail := s[..k], s[k..];
    assert s == head + tail;
    forall i | 0 <= i < |head| ensures In(w, head[i].completedAt) {
    }
    forall i | 0 <= i < |tail| ensures !In(w, tail[i].completedAt) {
      assert tail[i] == s[k + i] && s[k].completedAt >= s[k + i].completedAt;
    }
    KeepConcat(head, tail, w);
    KeepAll(head, w);
    KeepNone(tail, w);
  }

  lemma {:induction false} KeepConcat(a: seq<Record>, b: seq<Record>, w: Window)
    ensures Keep(a + b, w) == Keep(a, w) + Keep(b, w)
  {
    if a == [] {
      assert a + b == b;
    } else {
      assert (a + b)[1..] == a[1..] + b;
      KeepConcat(a[1..], b, w);
    }
  }

  /** With a clean cut, what is reloaded is what memory holds of the times from the cut on. */
  lemma CleanCutLoads(log: seq<Record>, cap: nat)
    requires 0 < cap < |log| && Sort(log)[cap - 1].completedAt > Sort(log)[cap].completedAt
    ensures var t := Sort(log)[cap - 1].completedAt;
            && Loaded(log, cap) == Keep(Run(log), From(t)) == Run(Sort(log)[..cap])
            && Run(log) == Loaded(log, cap) + Keep(Run(log), Below(t))
  {
    var t := Sort(log)[cap - 1].completedAt;
    SortSorts(log);
    RunKeeps(log);
    SortedPrefix(Sort(log), cap);
    KeepRun(Sort(log), From(t));
    SortedRun(log);
    LoadedIsRun(log, cap);
    BelowSplits(Run(log), t);
  }

  /** A clean cut below unique keys reloads, whatever repeats beyond it. */
  lemma CleanCutReloads(log: seq<Record>, cap: nat)
    requires 0 < cap < |log| && Sort(log)[cap - 1].completedAt > Sort(log)[cap].completedAt
    requires Unique(Sort(log)[..cap])
    ensures Loaded(log, cap) == Bounded(log, cap)
  {
    CleanCutLoads(log, cap);
    UniqueRun(Sort(log)[..cap]);
    BoundedIsHead(log, cap);
  }

  /** A clean cut below a repeated key does not: the second line takes the place of a record memory keeps. */
  lemma RepeatedKeyIsLost(log: seq<Record>, cap: nat)
    requires 0 < cap < |log| && Sort(log)[cap - 1].completedAt > Sort(log)[cap].completedAt
    requires !Unique(Sort(log)[..cap])
    ensures |Loaded(log, cap)| < |Bounded(log, cap)|
  {
    var t := Sort(log)[cap - 1].completedAt;
    CleanCutLoads(log, cap);
    RepeatedRun(Sort(log)[..cap]);
    BoundedIsHead(log, cap);
    SortSorts(log);
    SomeBelow(Sort(log), cap, t);
    WindowSizes(log, Below(t));
  }

  lemma {:induction false} SomeBelow(s: seq<Record>, k: nat, t: int)
    requires k < |s| && s[k].completedAt < t
    ensures Keep(s, Below(t)) != []
  {
    if k > 0 {
      SomeBelow(s[1..], k - 1, t);
    }
  }

  /** Where a record of time t sits in a sorted list: after the newer ones, in its group. */
  lemma {:induction false} GroupIndex(s: seq<Record>, t: int, i: nat)
    requires NewestFirst(s) && i < |s| && s[i].completedAt == t
    ensures var newer := |Keep(s, Above(t))|;
            newer <= i < newer + |Keep(s, At(t))| && Keep(s, At(t))[i - newer] == s[i]
  {
    SortedSplits(s, t);
    KeepIn(s, Above(t));
    KeepIn(s, Below(t));
  }

  /** With a tie of different records across the cut, the last one logged is in memory but is not reloaded. */
  lemma TieIsLost(log: seq<Record>, cap: nat)
    requires 0 < cap < |log| && Sort(log)[cap - 1].completedAt == Sort(log)[cap].completedAt
    requires Different(Keep(log, At(Sort(log)[cap].completedAt)))
    ensures Loaded(log, cap) != Bounded(log, cap)
  {
    var sorted, t := Sort(log), Sort(log)[cap].completedAt;
    SortSorts(log);
    SortIsStable(log, t);
    GroupIndex(sorted, t, cap - 1);
    GroupIndex(sorted, t, cap);
    LastIsInMemory(log, t, cap);
    LastIsNotLoaded(log, t, cap);
  }

  lemma {:induction false} LastIsNotLoaded(log: seq<Record>, t: int, cap: nat)
    requires 0 < cap < |log| && Keep(log, At(t)) != [] && Different(Keep(log, At(t)))
    requires cap < |Keep(Sort(log), Above(t))| + |Keep(log, At(t))|
    ensures var group := Keep(log, At(t)); group[|group| - 1] !in Loaded(log, cap)
  {
    LoadedIsRun(log, cap);
    RunKeeps(Sort(log)[..cap]);
    forall i | 0 <= i < cap ensures Sort(log)[i] != Keep(log, At(t))[|Keep(log, At(t))| - 1] {
      BeforeLast(log, t, i);
    }
  }

  lemma {:induction false} BeforeLast(log: seq<Record>, t: int, i: nat)
    requires i < |log| && Keep(log, At(t)) != [] && Different(Keep(log, At(t)))
    requires i + 1 < |Keep(Sort(log), Above(t))| + |Keep(log, At(t))|
    ensures Sort(log)[i] != Keep(log, At(t))[|Keep(log, At(t))| - 1]
  {
    var group := Keep(log, At(t));
    KeepIn(log, At(t));
    if Sort(log)[i].completedAt == t {
      SortSorts(log);
      SortIsStable(log, t);
      GroupIndex(Sort(log), t, i);
      assert group[i - |Keep(Sort(log), Above(t))|] != group[|group| - 1];
    }
  }

  lemma {:induction false} LastIsFirstOfGroup(group: seq<Record>, t: int)
    requires group != [] && forall i :: 0 <= i < |group| ==> group[i].completedAt == t
    ensures Run(group) != [] && Run(group)[0] == group[|group| - 1]
  {
    var before, x := group[..|group| - 1], group[|group| - 1];
    RunKeeps(before);
    var rest := Without(Run(before), x);
    WithoutIsPart(Run(before), x);
    if rest != [] {
      assert rest[0] in rest && rest[0] in Run(before) && rest[0] in before;
    }
  }

  lemma {:induction false} LastIsInMemory(log: seq<Record>, t: int, cap: nat)
    requires |Keep(Sort(log), Above(t))| < cap && Keep(log, At(t)) != []
    ensures var group := Keep(log, At(t)); group[|group| - 1] in Bounded(log, cap)
  {
    var all := Run(log);
    BoundedIsHead(log, cap);
    RunKeeps(log);
    WindowSizes(log, Above(t));
    KeepRun(log, At(t));
    KeepIn(log, At(t));
    LastIsFirstOfGroup(Keep(log, At(t)), t);
    SortedSplits(all, t);
    var k := |Keep(all, Above(t))|;
    assert all[k] == Keep(all, At(t))[0];
    assert FirstN(all, cap)[k] == all[k];
  }

  /** The cut at `cap` falls between different completion times and no key repeats above it. */
  ghost predicate CutsClean(log: seq<Record>, cap: nat)
    requires 0 < cap < |log|
  {
    Sort(log)[cap - 1].completedAt != Sort(log)[cap].completedAt && Unique(Sort(log)[..cap])
  }

  /** Every log that fits, or is cut cleanly, reloads to the list in memory, identical lines included. */
  lemma FitsOrCutsClean(log: seq<Record>, cap: nat)
    requires cap > 0 && (cap < |log| ==> CutsClean(log, cap))
    ensures Loaded(log, cap) == Bounded(log, cap)
  {
    SortSorts(log);
    if |log| <= cap {
      ShortLogReloads(log, cap);
    } else {
      CleanCutReloads(log, cap);
    }
  }

  /** Cut between different times, any log reloads to the list in memory exactly when no key repeats above. */
  lemma CleanTimesReloadExactly(log: seq<Record>, cap: nat)
    requires 0 < cap < |log| && Sort(log)[cap - 1].completedAt != Sort(log)[cap].completedAt
    ensures Loaded(log, cap) == Bounded(log, cap) <==> Unique(Sort(log)[..cap])
  {
    SortSorts(log);
    if Unique(Sort(log)[..cap]) {
      CleanCutReloads(log, cap);
    } else {
      RepeatedKeyIsLost(log, cap);
    }
  }

  /** No two lines logged for the time the cut falls on are identical. */
  ghost predicate DifferentAtCut(log: seq<Record>, cap: nat) {
    0 < cap < |log| && Sort(log)[cap - 1].completedAt == Sort(log)[cap].completedAt ==>
      Different(Keep(log, At(Sort(log)[cap].completedAt)))
  }

  /**
    A log reloads to the list in memory exactly when it fits or is cut cleanly, whatever is logged twice
    away from a tie at the cut.
   */
  lemma ReloadsExactly(log: seq<Record>, cap: nat)
    requires cap > 0 && DifferentAtCut(log, cap)
    ensures Loaded(log, cap) == Bounded(log, cap) <==> |log| <= cap || CutsClean(log, cap)
  {
    if |log| <= cap {
      FitsOrCutsClean(log, cap);
    } else if Sort(log)[cap - 1].completedAt == Sort(log)[cap].completedAt {
      TieIsLost(log, cap);
    } else {
      CleanTimesReloadExactly(log, cap);
    }
  }

  // ---- logs that lose a record, at any cap ----

  /** n results, one at each time from `first` on. */
  function Consecutive(r: Record, first: int, n: nat): (log: seq<Record>)
    ensures |log| == n
  {
    seq(n, i requires 0 <= i < n => r.(completedAt := first + i))
  }

  /** Where the sorted log passes from newer times to time t, for a log with nothing older. */
  lemma OldestTime(log: seq<Record>, t: int)
    requires Keep(log, Below(t)) == []
    ensures var k := |Keep(log, Above(t))|;
            && |log| == k + |Keep(log, At(t))|
            && (forall i :: 0 <= i < k ==> Sort(log)[i].completedAt > t)
            && (forall i :: k <= i < |log| ==> Sort(log)[i].completedAt == t)
  {
    var sorted := Sort(log);
    SortSorts(log);
    SortedSplits(sorted, t);
    KeepSort(log, Above(t));
    KeepSort(log, At(t));
    KeepSort(log, Below(t));
    KeepIn(sorted, Above(t));
    KeepIn(sorted, At(t));
  }

  /** A result at each of `cap` times from r's on, the newest one recorded twice. */
  function RecordedTwice(r: Record, cap: nat): seq<Record>
    requires cap > 0
  {
    Consecutive(r, r.completedAt, cap) + [Newest(r, cap)]
  }

  function Newest(r: Record, cap: nat): Record { r.(completedAt := r.completedAt + cap - 1) }

  lemma RecordedTwiceWindows(r: Record, cap: nat)
    requires cap > 1
    ensures var log, t := RecordedTwice(r, cap), r.completedAt;
            |log| == cap + 1 && Keep(log, Below(t)) == [] && |Keep(log, Above(t))| == cap
  {
    var t, later := r.completedAt, Consecutive(r, r.completedAt + 1, cap - 1);
    assert RecordedTwice(r, cap) == Consecutive(r, t, 1) + (later + [Newest(r, cap)]);
    KeepLatter(Consecutive(r, t, 1), later + [Newest(r, cap)], Above(t));
    KeepNone(RecordedTwice(r, cap), Below(t));
  }

  lemma NewestComeFirst(r: Record, cap: nat)
    requires cap > 1
    ensures var log := RecordedTwice(r, cap); Sort(log)[0] == Newest(r, cap) && Sort(log)[1] == Newest(r, cap)
  {
    var log, newest := RecordedTwice(r, cap), Newest(r, cap);
    var t := newest.completedAt;
    assert log == Consecutive(r, r.completedAt, cap - 1) + [newest, newest];
    KeepLatter(Consecutive(r, r.completedAt, cap - 1), [newest, newest], At(t));
    assert Keep(log, At(t)) == [newest, newest];
    KeepNone(log, Above(t));
    SortSorts(log);
    SortIsStable(log, t);
    KeepSort(log, Above(t));
    SortedSplits(Sort(log), t);
  }

  /** The second line of the newest result takes the place of the oldest, which memory still lists. */
  lemma RecordedTwiceIsLost(r: Record, cap: nat)
    requires cap > 1
    ensures |Loaded(RecordedTwice(r, cap), cap)| < |Bounded(RecordedTwice(r, cap), cap)|
  {
    RecordedTwiceWindows(r, cap);
    OldestTime(RecordedTwice(r, cap), r.completedAt);
    NewestComeFirst(r, cap);
    RepeatedKeyIsLost(RecordedTwice(r, cap), cap);
  }

  /** Two results at one time, and cap - 1 later ones. */
  function TiedAtCut(x: Record, y: Record, r: Record, cap: nat): seq<Record>
    requires cap > 0
  {
    [x, y] + Consecutive(r, x.completedAt + 1, cap - 1)
  }

  /** Of a list in two parts, a window keeps the whole of one and nothing of the other. */
  lemma KeepLatter(former: seq<Record>, latter: seq<Record>, w: Window)
    requires forall i :: 0 <= i < |former| ==> !In(w, former[i].completedAt)
    requires forall i :: 0 <= i < |latter| ==> In(w, latter[i].completedAt)
    ensures Keep(former + latter, w) == latter
  {
    KeepConcat(former, latter, w);
    KeepNone(former, w);
    KeepAll(latter, w);
  }

  lemma KeepFormer(former: seq<Record>, latter: seq<Record>, w: Window)
    requires forall i :: 0 <= i < |former| ==> In(w, former[i].completedAt)
    requires forall i :: 0 <= i < |latter| ==> !In(w, latter[i].completedAt)
    ensures Keep(former + latter, w) == former
  {
    KeepConcat(former, latter, w);
    KeepAll(former, w);
    KeepNone(latter, w);
  }

  lemma TiedWindows(x: Record, y: Record, r: Record, cap: nat)
    requires cap > 0 && x.completedAt == y.completedAt
    ensures var log, t := TiedAtCut(x, y, r, cap), x.completedAt;
            |log| == cap + 1 && Keep(log, At(t)) == [x, y] && |Keep(log, Above(t))| == cap - 1
  {
    var t, later := x.completedAt, Consecutive(r, x.completedAt + 1, cap - 1);
    KeepLatter([x, y], later, Above(t));
    KeepFormer([x, y], later, At(t));
  }

  /** Of the two tied results memory keeps the later one and the reloaded list does not hold it. */
  lemma TiedAtCutIsLost(x: Record, y: Record, r: Record, cap: nat)
    requires cap > 0 && x.completedAt == y.completedAt && x != y
    ensures y in Bounded(TiedAtCut(x, y, r, cap), cap) && y !in Loaded(TiedAtCut(x, y, r, cap), cap)
  {
    var log, t := TiedAtCut(x, y, r, cap), x.completedAt;
    TiedWindows(x, y, r, cap);
    SortLength(log, Above(t));
    LastIsInMemory(log, t, cap);
    LastIsNotLoaded(log, t, cap);
  }

  lemma SortLength(log: seq<Record>, w: Window)
    ensures |Keep(Sort(log), w)| == |Keep(log, w)|
  {
    KeepSort(log, w);
  }

  /** In particular whenever all completion times differ. */
  lemma {:induction false} DistinctTimesReload(log: seq<Record>, cap: nat)
    requires cap > 0 && forall i, j :: 0 <= i < j < |log| ==> log[i].completedAt != log[j].completedAt
    ensures Loaded(log, cap) == Bounded(log, cap)
  {
    if cap < |log| {
      SortSorts(log);
      forall i, j | 0 <= i < j < |log| ensures Sort(log)[i].completedAt != Sort(log)[j].completedAt {
        if Sort(log)[i].completedAt == Sort(log)[j].completedAt {
          var t := Sort(log)[i].completedAt;
          SortIsStable(log, t);
          GroupIndex(Sort(log), t, i);
          GroupIndex(Sort(log), t, j);
          AtMostOne(log, t);
        }
      }
    }
    FitsOrCutsClean(log, cap);
  }

  lemma {:induction false} AtMostOne(log: seq<Record>, t: int)
    requires forall i, j :: 0 <= i < j < |log| ==> log[i].completedAt != log[j].completedAt
    ensures |Keep(log, At(t))| <= 1
  {
    if log != [] {
      if log[0].completedAt == t {
        KeepNone(log[1..], At(t));
      } else {
        AtMostOne(log[1..], t);
      }
    }
  }

  // ---- what one insert leaves in the list ----

  lemma InsertIsPut(s: seq<Record>, r: Record, cap: nat)
    requires NewestFirst(s)
    ensures InsertBounded(s, r, cap) == FirstN(Put(s, r), cap)
  {
    WithoutKeepsOrder(s, r);
    SortSorted(Without(s, r));
    assert ([r] + Without(s, r))[1..] == Without(s, r);
  }

  /** An inserted record goes right behind the newer ones. */
  lemma {:induction false} PutAt(s: seq<Record>, r: Record)
    requires NewestFirst(s) && Unique(s)
    ensures var k := |Keep(s, Above(r.completedAt))|; k < |Put(s, r)| && Put(s, r)[k] == r
  {
    var t, all := r.completedAt, Put(s, r);
    WithoutKeepsOrder(s, r);
    PutKeeps(s, r);
    KeepPlace(Without(s, r), r, Above(t));
    KeepWithout(s, r, Above(t));
    KeepPlace(Without(s, r), r, At(t));
    KeepIn(Without(s, r), At(t));
    SortedSplits(all, t);
    KeepIn(all, Above(t));
  }

  /** A record stays in the bounded list exactly when fewer than `cap` records there are newer. */
  lemma {:induction false} InsertedStaysExactly(s: seq<Record>, r: Record, cap: nat)
    requires NewestFirst(s) && Unique(s) && cap > 0
    ensures r in InsertBounded(s, r, cap) <==> |Keep(s, Above(r.completedAt))| < cap
  {
    var all, k := Put(s, r), |Keep(s, Above(r.completedAt))|;
    InsertIsPut(s, r, cap);
    PutKeeps(s, r);
    PutAt(s, r);
    assert k < cap ==> FirstN(all, cap)[k] == r;
    if r in FirstN(all, cap) {
      var i :| 0 <= i < |FirstN(all, cap)| && FirstN(all, cap)[i] == r;
      assert SameKey(all[i], all[k]);
    }
  }
}
