/**
  The rejection store: a bounded window over an array whose start index advances and which is
  compacted only now and then. Seen from outside it is the list of the last records since a clear.
 */
module RejectionStore {
  import opened Wrappers
  import opened Names
  import opened InsertionMap

  datatype Input =
    Input(stage: string, code: string, reason: string, market: string, buyExchange: string, sellExchange: string)

  datatype Record = Record(
    id: string, stage: string, code: string, reason: string, market: string, buyExchange: string, sellExchange: string,
      rejectedAt: nat)

  // ---- identifiers ----

  function Digit(d: nat): char
    requires d < 36
  {
    if d < 10 then '0' + d as char else 'a' + (d - 10) as char
  }

  function Base36(n: nat): string {
    if n < 36 then [Digit(n)] else Base36(n / 36) + [Digit(n % 36)]
  }

  function DigitValue(c: char): nat {
    if '0' <= c <= '9' then c as nat - '0' as nat
    else if 'a' <= c <= 'z' then c as nat - 'a' as nat + 10
    else 0
  }

  function FromBase36(s: string): nat {
    if s == "" then 0 else FromBase36(s[..|s| - 1]) * 36 + DigitValue(s[|s| - 1])
  }

  lemma {:induction false} Base36RoundTrip(n: nat)
    ensures FromBase36(Base36(n)) == n && '-' !in Base36(n)
  {
    if n >= 36 {
      Base36RoundTrip(n / 36);
      var s := Base36(n);
      assert s[..|s| - 1] == Base36(n / 36) && s[|s| - 1] == Digit(n % 36);
    } else {
      assert [Digit(n)][..0] == "";
    }
  }

  function IdOf(at: nat, sequence: nat): string { Base36(at) + "-" + Base36(sequence) }

  /** Different sequence numbers give different identifiers, whatever the times. */
  lemma IdsDiffer(at: nat, sequence: nat, at': nat, sequence': nat)
    requires IdOf(at, sequence) == IdOf(at', sequence')
    ensures sequence == sequence' && at == at'
  {
    Base36RoundTrip(at);
    Base36RoundTrip(at');
    Base36RoundTrip(sequence);
    Base36RoundTrip(sequence');
    var id, n, n' := IdOf(at, sequence), |Base36(at)|, |Base36(at')|;
    assert id[n] == '-' && id[n'] == '-';
    assert forall i :: 0 <= i < n ==> id[i] == Base36(at)[i];
    assert forall i :: 0 <= i < n' ==> id[i] == Base36(at')[i];
    assert n == n';
    assert id[..n] == Base36(at) && id[..n'] == Base36(at');
    assert id[n + 1..] == Base36(sequence) && id[n' + 1..] == Base36(sequence');
  }

  // ---- making a record ----

  function CreateRecord(input: Input, at: nat, sequence: nat): Result<Record> {
    var market, buy, sell, reason :=
      NormMarket(input.market), NormExchange(input.buyExchange), NormExchange(input.sellExchange), Trim(input.reason);
    if market == "" || buy == "" || sell == "" || reason == "" then Err
    else Ok(Record(IdOf(at, sequence), input.stage, input.code, reason, market, buy, sell, at))
  }

  // ---- reading ----

  function Reversed<T>(s: seq<T>): (r: seq<T>)
    ensures |r| == |s|
    ensures forall i :: 0 <= i < |s| ==> r[i] == s[|s| - 1 - i]
  {
    if s == [] then [] else [s[|s| - 1]] + Reversed(s[..|s| - 1])
  }

  function OfStage(s: seq<Record>, stage: string): seq<Record> {
    if s == [] then []
    else
      var before, last := OfStage(s[..|s| - 1], stage), s[|s| - 1];
      if last.stage == stage then before + [last] else before
  }

  /** The stage's records, in their order and no others. */
  lemma {:induction false} OfStageIs(s: seq<Record>, stage: string, x: Record)
    ensures x in OfStage(s, stage) <==> x in s && x.stage == stage
    ensures |OfStage(s, stage)| == multiset(StagesOf(s))[stage]
  {
    if s != [] {
      var before, last := s[..|s| - 1], s[|s| - 1];
      OfStageIs(before, stage, x);
      assert s == before + [last] && StagesOf(s) == StagesOf(before) + [last.stage];
    }
  }

  /** Two lists in a row: their records of the stage in a row. */
  lemma {:induction false} OfStageInOrder(before: seq<Record>, after: seq<Record>, stage: string)
    ensures OfStage(before + after, stage) == OfStage(before, stage) + OfStage(after, stage)
  {
    if after == [] {
      assert before + after == before;
    } else {
      var n := |after| - 1;
      OfStageInOrder(before, after[..n], stage);
      assert (before + after)[..|before + after| - 1] == before + after[..n];
    }
  }

  /** How often each name occurs, names in the order they first occur. */
  function Tally(names: seq<string>): Entries<nat> {
    if names == [] then []
    else
      var before, name := Tally(names[..|names| - 1]), names[|names| - 1];
      Insert(before, name, Find(before, name).GetOr(0) + 1)
  }

  function Occurrences(names: seq<string>, name: string): nat { multiset(names)[name] }

  function Total(m: Entries<nat>): nat {
    if m == [] then 0 else m[0].1 + Total(m[1..])
  }

  lemma {:induction false} TotalInsert(m: Entries<nat>, k: string, v: nat)
    ensures Total(Insert(m, k, v)) + Find(m, k).GetOr(0) == Total(m) + v
  {
    if m != [] && m[0].0 != k {
      TotalInsert(m[1..], k, v);
      assert Insert(m, k, v)[1..] == Insert(m[1..], k, v);
    } else if m != [] {
      assert Insert(m, k, v)[1..] == m[1..];
    }
  }

  /** A tally gives each name its number of occurrences, and the counts add up to the number of records. */
  lemma {:induction false} TallyCounts(names: seq<string>)
    ensures forall k :: Find(Tally(names), k) == if k in names then Some(Occurrences(names, k)) else None
    ensures Total(Tally(names)) == |names|
  {
    if names != [] {
      var before, name := names[..|names| - 1], names[|names| - 1];
      TallyCounts(before);
      assert names == before + [name];
      TotalInsert(Tally(before), name, Find(Tally(before), name).GetOr(0) + 1);
      forall k ensures Find(Tally(names), k) == if k in names then Some(Occurrences(names, k)) else None {
        FindInsert(Tally(before), name, Find(Tally(before), name).GetOr(0) + 1, k);
      }
    }
  }

  lemma {:induction false} TallyTotal(names: seq<string>)
    ensures Total(Tally(names)) == |names|
  {
    TallyCounts(names);
  }

  lemma TallyNext(names: seq<string>, k: nat)
    requires k < |names|
    ensures Tally(names[..k + 1]) == Insert(Tally(names[..k]), names[k], Find(Tally(names[..k]), names[k]).GetOr(0) + 1)
  {
    assert names[..k + 1][..k] == names[..k];
  }

  function StagesOf(s: seq<Record>): seq<string> { seq(|s|, i requires 0 <= i < |s| => s[i].stage) }

  function CodesOf(s: seq<Record>): seq<string> { seq(|s|, i requires 0 <= i < |s| => s[i].code) }

  datatype Summary =
    Summary(totalStored: nat, capacity: nat, byStage: Entries<nat>, byCode: Entries<nat>,
            latestRejectionAt: Option<nat>)

  /** Identifiers carry the running number of their record. */
  ghost predicate Numbered(issued: seq<Record>) {
    forall i :: 0 <= i < |issued| ==> issued[i].id == IdOf(issued[i].rejectedAt, i + 1)
  }

  /** The counts of `getSummary`, over the records from `start` on. */
  method CountRecords(records: seq<Record>, start: nat) returns (byStage: Entries<nat>, byCode: Entries<nat>)
    requires start <= |records|
    ensures byStage == Tally(StagesOf(records[start..])) && byCode == Tally(CodesOf(records[start..]))
  {
    byStage, byCode := [], [];
    ghost var stages, codes := StagesOf(records[start..]), CodesOf(records[start..]);
    for index := start to |records|
      invariant byStage == Tally(stages[..index - start]) && byCode == Tally(codes[..index - start])
    {
      var record := records[index];
      assert record.stage == stages[index - start] && record.code == codes[index - start];
      TallyNext(stages, index - start);
      TallyNext(codes, index - start);
      byStage := Insert(byStage, record.stage, Find(byStage, record.stage).GetOr(0) + 1);
      byCode := Insert(byCode, record.code, Find(byCode, record.code).GetOr(0) + 1);
    }
    assert stages[..|stages|] == stages && codes[..|codes|] == codes;
  }

  class Store {
    const capacity: nat
    var records: seq<Record>
    var recordStartIndex: nat
    var nextRecordSequence: nat
    /** Every record ever made, and how many of them were made before the last clear. */
    ghost var issued: seq<Record>
    ghost var cleared: nat
    /** How many elements compaction has moved so far. */
    ghost var moved: nat

    ghost predicate Valid()
      reads this
    {
      && capacity > 0 && cleared <= |issued|
      && recordStartIndex <= |records| && recordStartIndex < capacity
      && (recordStartIndex == |records| ==> records == [])
      && records[recordStartIndex..] == LastN(issued[cleared..], capacity)
      && nextRecordSequence == |issued| + 1
      && Numbered(issued)
      && moved + |records| <= |issued|
    }

    /** What a reader sees. */
    ghost function Window(): seq<Record>
      requires cleared <= |issued|
      reads this
    {
      LastN(issued[cleared..], capacity)
    }

    constructor (capacity: nat)
      requires capacity > 0
      ensures Valid() && this.capacity == capacity && issued == [] && Window() == []
    {
      this.capacity := capacity;
      records, recordStartIndex, nextRecordSequence := [], 0, 1;
      issued, cleared, moved := [], 0, 0;
    }

    method TrimToCapacity()
      requires capacity > 0 && recordStartIndex <= |records| && recordStartIndex < capacity
               && |records| - recordStartIndex <= capacity + 1
      modifies `records, `recordStartIndex, `moved
      ensures recordStartIndex <= |records| && recordStartIndex < capacity
      ensures records[recordStartIndex..] == LastN(old(records)[old(recordStartIndex)..], capacity)
      ensures moved + |records| <= old(moved) + old(|records|)
    {
      var overflow := |records| - recordStartIndex - capacity;
      if overflow <= 0 {
        return;
      }
      recordStartIndex := recordStartIndex + overflow;
      if recordStartIndex >= capacity {
        records := records[recordStartIndex..];
        moved := moved + |records|;
        recordStartIndex := 0;
      }
    }

    /** Records a rejection: a blank name or reason is refused and changes nothing. */
    method RecordRejection(input: Input, now: nat) returns (result: Result<Record>)
      requires Valid()
      modifies this
      ensures Valid() && cleared == old(cleared)
      ensures result == CreateRecord(input, now, |old(issued)| + 1)
      ensures result.Ok? <==>
                && NormMarket(input.market) != "" && Trim(input.reason) != ""
                && NormExchange(input.buyExchange) != "" && NormExchange(input.sellExchange) != ""
      ensures result.Ok? ==>
                var r := result.value;
                && r.id == Base36(now) + "-" + Base36(|old(issued)| + 1) && r.rejectedAt == now
                && r.stage == input.stage && r.code == input.code && r.reason == Trim(input.reason)
                && r.market == NormMarket(input.market)
                && r.buyExchange == NormExchange(input.buyExchange)
                && r.sellExchange == NormExchange(input.sellExchange)
      ensures issued == old(issued) + if result.Ok? then [result.value] else []
    {
      result := CreateRecord(input, now, nextRecordSequence);
      if result.Ok? {
        nextRecordSequence := nextRecordSequence + 1;
        Push(result.value);
      }
    }

    lemma WindowGrows(issued: seq<Record>, record: Record)
      requires capacity > 0 && cleared <= |issued|
      ensures LastN((issued + [record])[cleared..], capacity)
              == LastN(LastN(issued[cleared..], capacity) + [record], capacity)
    {
      LastNPush(issued[cleared..], record, capacity);
      assert (issued + [record])[cleared..] == issued[cleared..] + [record];
    }

    method Push(record: Record)
      requires |issued| + 2 == nextRecordSequence && record.id == IdOf(record.rejectedAt, |issued| + 1)
      requires capacity > 0 && cleared <= |issued| && recordStartIndex <= |records| && recordStartIndex < capacity
      requires records[recordStartIndex..] == Window() && Numbered(issued) && moved + |records| <= |issued|
      modifies `records, `recordStartIndex, `moved, `issued
      ensures Valid() && issued == old(issued) + [record]
    {
      records := records + [record];
      WindowGrows(issued, record);
      assert records[recordStartIndex..] == old(records)[recordStartIndex..] + [record];
      TrimToCapacity();
      issued := issued + [record];
    }

    function NormalizeLimit(limit: int): Option<nat> {
      if limit <= 0 then None else Some(if limit <= capacity then limit else capacity)
    }

    method GetRecent(limit: int) returns (result: Option<seq<Record>>)
      requires Valid()
      ensures result == if limit <= 0 then None else Some(Reversed(LastN(Window(), limit)))
    {
      var normalized := NormalizeLimit(limit);
      if normalized.None? {
        return None;
      }
      var start := Max(recordStartIndex, |records| - normalized.value);
      assert records[start..] == LastN(records[recordStartIndex..], limit);
      return Some(Reversed(records[start..]));
    }

    method GetAll() returns (result: seq<Record>)
      requires Valid()
      ensures result == Window()
    {
      result := records[recordStartIndex..];
    }

    method GetByStage(stage: string, limit: int) returns (result: Option<seq<Record>>)
      requires Valid()
      ensures result == if limit <= 0 then None else Some(Reversed(LastN(OfStage(Window(), stage), limit)))
    {
      var normalized := NormalizeLimit(limit);
      if normalized.None? {
        return None;
      }
      var stored := records[recordStartIndex..];
      var matching := [];
      for i := 0 to |stored|
        invariant matching == OfStage(stored[..i], stage)
        invariant |matching| <= i
      {
        assert stored[..i + 1][..i] == stored[..i];
        if stored[i].stage == stage {
          matching := matching + [stored[i]];
        }
      }
      assert stored[..|stored|] == stored;
      return Some(Reversed(LastN(matching, normalized.value)));
    }

    method GetSummary() returns (summary: Summary)
      requires Valid()
      ensures summary.totalStored == |Window()| && summary.capacity == capacity
      ensures summary.byStage == Tally(StagesOf(Window())) && summary.byCode == Tally(CodesOf(Window()))
      ensures Total(summary.byStage) == Total(summary.byCode) == summary.totalStored
      ensures summary.latestRejectionAt == if Window() == [] then None else Some(Window()[|Window()| - 1].rejectedAt)
    {
      var byStage, byCode := CountRecords(records, recordStartIndex);
      TallyTotal(StagesOf(Window()));
      TallyTotal(CodesOf(Window()));
      var latest := if |records| == 0 then None else Some(records[|records| - 1].rejectedAt);
      summary := Summary(|records| - recordStartIndex, capacity, byStage, byCode, latest);
    }

    method Clear()
      requires Valid()
      modifies `records, `recordStartIndex, `cleared
      ensures Valid() && issued == old(issued) && Window() == []
    {
      records, recordStartIndex := [], 0;
      cleared := |issued|;
    }

    /** No two records ever made share an identifier, clears included. */
    lemma IdsNeverRepeat(i: nat, j: nat)
      requires Valid() && i < j < |issued|
      ensures issued[i].id != issued[j].id
    {
      if issued[i].id == issued[j].id {
        IdsDiffer(issued[i].rejectedAt, i + 1, issued[j].rejectedAt, j + 1);
      }
    }

    /** The backing array stays under twice the capacity, and compaction moves fewer elements than were pushed. */
    lemma CostIsBounded()
      requires Valid()
      ensures |records| < 2 * capacity && moved <= |issued|
    {
      assert |records[recordStartIndex..]| <= capacity;
    }
  }
}
