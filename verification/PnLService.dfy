/** The P&L service: the bounded list in memory and the append log beside it. */
module PnLService {
  import opened Wrappers
  import opened PnLList
  import opened PnLReload

  const MAXIMUM_STORED_RECORDS := 1000

  class ArbitragePnLService {
    var records: seq<Record>
    var log: seq<Record>
    /** Everything inserted since the list was last empty. */
    ghost var history: seq<Record>

    ghost predicate Valid()
      reads this
    {
      records == Bounded(history, MAXIMUM_STORED_RECORDS)
    }

    /** Starts on a stored log: the newest records of it, inserted newest first. */
    constructor (stored: seq<Record>)
      ensures Valid() && log == stored
      ensures records == Loaded(stored, MAXIMUM_STORED_RECORDS)
    {
      log, records, history := stored, [], [];
      new;
      var newest := FirstN(Sort(stored), MAXIMUM_STORED_RECORDS);
      for i := 0 to |newest|
        invariant Valid() && log == stored && history == newest[..i]
      {
        assert newest[..i + 1] == newest[..i] + [newest[i]];
        InsertRecord(newest[i]);
      }
      assert newest[..|newest|] == newest;
    }

    method FindDuplicate(record: Record) returns (index: int)
      ensures index == -1 <==> forall i :: 0 <= i < |records| ==> !SameKey(records[i], record)
      ensures index != -1 ==> 0 <= index < |records| && SameKey(records[index], record)
      ensures forall i :: 0 <= i < index ==> !SameKey(records[i], record)
    {
      for i := 0 to |records|
        invariant forall j :: 0 <= j < i ==> !SameKey(records[j], record)
      {
        if SameKey(records[i], record) {
          return i;
        }
      }
      return -1;
    }

    method InsertRecord(record: Record)
      requires Valid()
      modifies `records, `history
      ensures Valid() && history == old(history) + [record]
      ensures records == FirstN(Put(Run(old(history)), record), MAXIMUM_STORED_RECORDS)
      ensures records == InsertBounded(old(records), record, MAXIMUM_STORED_RECORDS)
    {
      ghost var before := records;
      var duplicate := FindDuplicate(record);
      WithoutAt(records, record, duplicate);
      if duplicate != -1 {
        records := records[..duplicate] + records[duplicate + 1..];
      }
      records := Sort([record] + records);
      if |records| > MAXIMUM_STORED_RECORDS {
        records := records[..MAXIMUM_STORED_RECORDS];
      }
      assert (history + [record])[..|history|] == history;
      history := history + [record];
      assert records == InsertBounded(before, record, MAXIMUM_STORED_RECORDS);
      BoundedIsHead(history, MAXIMUM_STORED_RECORDS);
    }

    /**
      A recorded result is in the list at once, unless 1,000 newer ones fill it; it reaches the log only
      when asked to and when the append works.
     */
    method Record(record: Record, persist: bool, appendWorks: bool)
      requires Valid()
      modifies this
      ensures Valid() && history == old(history) + [record]
      ensures log == old(log) + if persist && appendWorks then [record] else []
      ensures |records| <= 1000 && NewestFirst(records) && Unique(records)
      ensures forall x :: x in records ==>
                x == record || (x in old(records) && (x.id != record.id || x.completedAt != record.completedAt))
      ensures |old(records)| < 1000 ==> record in records && forall x :: x in old(records) ==>
                x in records || (x.id == record.id && x.completedAt == record.completedAt)
      ensures record in records <==> |Keep(old(records), Above(record.completedAt))| < MAXIMUM_STORED_RECORDS
    {
      BoundedKeeps(history, MAXIMUM_STORED_RECORDS);
      InsertKeepsOthers(records, record);
      InsertedStaysExactly(records, record, MAXIMUM_STORED_RECORDS);
      InsertRecord(record);
      BoundedKeeps(history, MAXIMUM_STORED_RECORDS);
      if persist && appendWorks {
        log := log + [record];
      }
    }

    method Reset()
      modifies `records, `history
      ensures Valid() && records == [] && history == []
    {
      records, history := [], [];
    }
  }

  /** Inserting replaces the record of the same opportunity and time, and no other, as long as there is room. */
  lemma InsertKeepsOthers(s: seq<Record>, r: Record)
    requires NewestFirst(s) && Unique(s)
    ensures var after := InsertBounded(s, r, MAXIMUM_STORED_RECORDS);
            && (forall x :: x in after ==> x == r || (x in s && !(x.id == r.id && x.completedAt == r.completedAt)))
            && (|s| < MAXIMUM_STORED_RECORDS ==>
                  r in after && forall x :: x in s ==> x in after || (x.id == r.id && x.completedAt == r.completedAt))
  {
    InsertIsPut(s, r, MAXIMUM_STORED_RECORDS);
    PutKeeps(s, r);
    PutLength(s, r);
    assert forall x :: x in FirstN(Put(s, r), MAXIMUM_STORED_RECORDS) ==> x in Put(s, r);
  }

  lemma PutLength(s: seq<Record>, r: Record)
    ensures |Put(s, r)| <= |s| + 1
  {
    WithoutLength(s, r);
  }

  /** One result for each of 1,000 times, the newest recorded twice: restarting loses the oldest. */
  lemma RestartLosesOldest(r: Record)
    ensures var log := RecordedTwice(r, MAXIMUM_STORED_RECORDS);
            |Loaded(log, MAXIMUM_STORED_RECORDS)| < |Bounded(log, MAXIMUM_STORED_RECORDS)|
  {
    RecordedTwiceIsLost(r, MAXIMUM_STORED_RECORDS);
  }

  /** Two results at one time and 999 later ones: restarting exchanges one of the two for the other. */
  lemma RestartLosesTied(x: Record, y: Record, r: Record)
    requires x.completedAt == y.completedAt && x != y
    ensures var log := TiedAtCut(x, y, r, MAXIMUM_STORED_RECORDS);
            y in Bounded(log, MAXIMUM_STORED_RECORDS) && y !in Loaded(log, MAXIMUM_STORED_RECORDS)
  {
    TiedAtCutIsLost(x, y, r, MAXIMUM_STORED_RECORDS);
  }

  /** `findIndex` and `splice` take out what `Without` leaves out. */
  lemma {:induction false} WithoutAt(s: seq<Record>, r: Record, index: int)
    requires -1 <= index < |s| && (index != -1 ==> SameKey(s[index], r))
    requires forall i :: 0 <= i < (if index == -1 then |s| else index) ==> !SameKey(s[i], r)
    ensures Without(s, r) == if index == -1 then s else s[..index] + s[index + 1..]
  {
    if s != [] {
      assert s == [s[0]] + s[1..];
      if index != 0 {
        WithoutAt(s[1..], r, if index == -1 then -1 else index - 1);
      }
    }
  }
}
