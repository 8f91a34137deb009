/** The Panel's traffic tables: running totals, hourly and daily buckets, overrides and retention. */
module Traffic {
  import opened Text

  datatype Bytes = Bytes(rx: int, tx: int)

  const NO_BYTES := Bytes(0, 0)

  function Plus(a: Bytes, b: Bytes): Bytes {
    Bytes(a.rx + b.rx, a.tx + b.tx)
  }

  lemma PlusShuffle(a: Bytes, b: Bytes, c: Bytes)
    ensures Plus(a, Plus(b, c)) == Plus(Plus(a, b), c) == Plus(b, Plus(a, c))
    ensures Plus(NO_BYTES, a) == a == Plus(a, NO_BYTES)
  {
  }

  predicate AtMost(a: Bytes, b: Bytes) {
    a.rx <= b.rx && a.tx <= b.tx
  }

  datatype Kind = Hourly | Daily

  /** A row of traffic_rollups; times are milliseconds, cut down to the hour or the day. */
  datatype Row = Row(connection: string, start: int, kind: Kind, bytes: Bytes)

  datatype Status = Active | Suspended | Expired | QuotaExceeded | Revoked

  /** A row of connections, as far as traffic goes. */
  datatype Connection = Connection(
    total: Bytes, counter: Bytes, epoch: int, status: Status, expiresAt: Option<int>, overrideAt: Option<int>,
      overrideUsed: int)

  datatype Period = Lifetime | Month | CalendarMonth

  const HOUR := 3_600_000
  const DAY := 86_400_000

  function Bucket(kind: Kind, time: int): int {
    if kind.Hourly? then time - time % HOUR else time - time % DAY
  }

  // What a sample is worth -------------------------------------------------------------------------------------

  predicate IsReset(last: Bytes, sample: Bytes) {
    sample.rx < last.rx || sample.tx < last.tx
  }

  /** Both counters start again when either has fallen. */
  function Delta(last: Bytes, sample: Bytes): Bytes {
    if IsReset(last, sample) then sample else Bytes(sample.rx - last.rx, sample.tx - last.tx)
  }

  function LastSample(samples: seq<Bytes>): Bytes {
    if samples == [] then NO_BYTES else samples[|samples| - 1]
  }

  /** What the Panel has credited after these samples. */
  function Credited(samples: seq<Bytes>): Bytes {
    if samples == [] then NO_BYTES
    else
      var before := samples[..|samples| - 1];
      Plus(Credited(before), Delta(LastSample(before), samples[|samples| - 1]))
  }

  /** The last samples of the counter epochs that a later sample has closed. */
  function ClosedEpochs(samples: seq<Bytes>): Bytes {
    if samples == [] then NO_BYTES
    else
      var before := samples[..|samples| - 1];
      if IsReset(LastSample(before), samples[|samples| - 1]) then Plus(ClosedEpochs(before), LastSample(before))
        else ClosedEpochs(before)
  }

  function Resets(samples: seq<Bytes>): nat {
    if samples == [] then 0
    else
      var before := samples[..|samples| - 1];
      Resets(before) + if IsReset(LastSample(before), samples[|samples| - 1]) then 1 else 0
  }

  /** Everything credited is in the closed epochs and in the current counter. */
  lemma {:induction false} CreditedByEpochs(samples: seq<Bytes>)
    ensures Credited(samples) == Plus(ClosedEpochs(samples), LastSample(samples))
  {
    if samples != [] {
      CreditedByEpochs(samples[..|samples| - 1]);
    }
  }

  // Sums over buckets ------------------------------------------------------------------------------------------

  /** Buckets from a time on, or all of them. */
  datatype Window = Always | From(time: int)

  predicate Within(start: Window, bucket: int) {
    start.From? ==> bucket >= start.time
  }

  function RowBytes(r: Row, connection: string, kind: Kind, start: Window): Bytes {
    if r.connection == connection && r.kind == kind && Within(start, r.start) then r.bytes else NO_BYTES
  }

  function Sum(rows: seq<Row>, connection: string, kind: Kind, start: Window): Bytes {
    if rows == [] then NO_BYTES
    else Plus(RowBytes(rows[0], connection, kind, start), Sum(rows[1..], connection, kind, start))
  }

  lemma SumCons(r: Row, rest: seq<Row>, connection: string, kind: Kind, start: Window)
    ensures Sum([r] + rest, connection, kind, start) ==
      Plus(RowBytes(r, connection, kind, start), Sum(rest, connection, kind, start))
  {
    assert ([r] + rest)[1..] == rest;
  }

  predicate SameKey(r: Row, connection: string, start: int, kind: Kind) {
    r.connection == connection && r.start == start && r.kind == kind
  }

  /** Insert, or add to the row with this primary key. */
  function Upsert(rows: seq<Row>, row: Row): seq<Row> {
    if rows == [] then [row]
    else if SameKey(rows[0], row.connection, row.start, row.kind) then
      [rows[0].(bytes := Plus(rows[0].bytes, row.bytes))] + rows[1..]
    else [rows[0]] + Upsert(rows[1..], row)
  }

  lemma UpsertFirst(first: Row, rest: seq<Row>, row: Row)
    ensures Upsert([first] + rest, row) ==
      if SameKey(first, row.connection, row.start, row.kind) then [first.(bytes := Plus(first.bytes, row.bytes))] + rest
      else [first] + Upsert(rest, row)
  {
    var rows := [first] + rest;
    assert rows[0] == first && rows[1..] == rest;
  }

  /** The table by its primary key. */
  function Held(rows: seq<Row>, connection: string, start: int, kind: Kind): Option<Bytes> {
    if rows == [] then None
    else if SameKey(rows[0], connection, start, kind) then Some(rows[0].bytes)
    else Held(rows[1..], connection, start, kind)
  }

  lemma HeldFirst(first: Row, rest: seq<Row>, connection: string, start: int, kind: Kind)
    ensures Held([first] + rest, connection, start, kind) ==
      if SameKey(first, connection, start, kind) then Some(first.bytes) else Held(rest, connection, start, kind)
  {
    assert ([first] + rest)[1..] == rest;
  }

  function More(held: Option<Bytes>, bytes: Bytes): Option<Bytes> {
    Some(if held.Some? then Bytes(held.value.rx + bytes.rx, held.value.tx + bytes.tx) else bytes)
  }

  /** An upsert changes what is held under its own key and nothing else. */
  lemma {:induction false} UpsertHeld(rows: seq<Row>, row: Row, connection: string, start: int, kind: Kind)
    ensures Held(Upsert(rows, row), connection, start, kind) ==
      if SameKey(row, connection, start, kind) then More(Held(rows, connection, start, kind), row.bytes)
      else Held(rows, connection, start, kind)
  {
    if rows == [] {
      HeldFirst(row, [], connection, start, kind);
    } else {
      hide Upsert, Held;
      var first, rest := rows[0], rows[1..];
      assert rows == [first] + rest;
      UpsertFirst(first, rest, row);
      UpsertHeld(rest, row, connection, start, kind);
      HeldFirst(first, rest, connection, start, kind);
      HeldFirst(first, Upsert(rest, row), connection, start, kind);
      HeldFirst(first.(bytes := Plus(first.bytes, row.bytes)), rest, connection, start, kind);
    }
  }

  /** The full hour, and the midnight, before a time. */
  predicate StartsHour(start: int, time: int) {
    start % 3_600_000 == 0 && start <= time < start + 3_600_000
  }

  predicate StartsDay(start: int, time: int) {
    start % 86_400_000 == 0 && start <= time < start + 86_400_000
  }

  lemma BucketStarts(time: int)
    ensures StartsHour(Bucket(Hourly, time), time) && StartsDay(Bucket(Daily, time), time)
  {
    HourStart(time);
    DayStart(time);
  }

  lemma HourStart(time: int)
    ensures StartsHour(time - time % 3_600_000, time)
  {
    var n := time / 3_600_000;
    assert time - time % 3_600_000 == n * 3_600_000;
    assert (n * 3_600_000) % 3_600_000 == 0;
  }

  lemma DayStart(time: int)
    ensures StartsDay(time - time % 86_400_000, time)
  {
    var n := time / 86_400_000;
    assert time - time % 86_400_000 == n * 86_400_000;
    assert (n * 86_400_000) % 86_400_000 == 0;
  }

  lemma OneMidnight(a: int, b: int, time: int)
    requires StartsDay(a, time) && StartsDay(b, time)
    ensures a == b
  {
  }

  /** The rows of this hour and this day have this much more, and no other row has changed. */
  ghost predicate Booked(before: seq<Row>, after: seq<Row>, id: string, hour: int, day: int, delta: Bytes) {
    forall connection, start, kind :: Held(after, connection, start, kind) ==
      if connection == id && start == (if kind.Hourly? then hour else day)
      then More(Held(before, connection, start, kind), delta) else Held(before, connection, start, kind)
  }

  lemma UpsertsBook(rows: seq<Row>, id: string, hour: int, day: int, delta: Bytes)
    ensures Booked(rows, Upsert(Upsert(rows, Row(id, hour, Hourly, delta)), Row(id, day, Daily, delta)), id, hour, day,
      delta)
  {
    hide Upsert, Held, More;
    var hourly, daily := Row(id, hour, Hourly, delta), Row(id, day, Daily, delta);
    forall connection, start, kind
      ensures Held(Upsert(Upsert(rows, hourly), daily), connection, start, kind) ==
        if connection == id && start == (if kind.Hourly? then hour else day)
        then More(Held(rows, connection, start, kind), delta) else Held(rows, connection, start, kind)
    {
      UpsertHeld(rows, hourly, connection, start, kind);
      UpsertHeld(Upsert(rows, hourly), daily, connection, start, kind);
    }
  }

  predicate UniqueRows(rows: seq<Row>) {
    forall i, j :: 0 <= i < j < |rows| ==> !SameKey(rows[i], rows[j].connection, rows[j].start, rows[j].kind)
  }

  lemma RowBytesAdd(r: Row, row: Row, connection: string, kind: Kind, start: Window)
    requires SameKey(r, row.connection, row.start, row.kind)
    ensures RowBytes(r.(bytes := Plus(r.bytes, row.bytes)), connection, kind, start) ==
      Plus(RowBytes(r, connection, kind, start), RowBytes(row, connection, kind, start))
  {
  }

  lemma PlusSwap(a: Bytes, b: Bytes, c: Bytes)
    ensures Plus(Plus(a, b), c) == Plus(Plus(a, c), b) && Plus(a, Plus(b, c)) == Plus(Plus(a, b), c)
  {
  }

  lemma {:induction false} UpsertSum(rows: seq<Row>, row: Row, connection: string, kind: Kind, start: Window)
    ensures Sum(Upsert(rows, row), connection, kind, start) ==
      Plus(Sum(rows, connection, kind, start), RowBytes(row, connection, kind, start))
  {
    hide Plus, SameKey, RowBytes;
    if rows == [] {
      assert [row][1..] == [];
      PlusShuffle(RowBytes(row, connection, kind, start), NO_BYTES, NO_BYTES);
    } else {
      hide Upsert, Sum;
      var first, rest := rows[0], rows[1..];
      assert rows == [first] + rest;
      UpsertFirst(first, rest, row);
      SumCons(first, rest, connection, kind, start);
      var own, sum, added := RowBytes(first, connection, kind, start), Sum(rest, connection, kind, start),
        RowBytes(row, connection, kind, start);
      if SameKey(first, row.connection, row.start, row.kind) {
        RowBytesAdd(first, row, connection, kind, start);
        SumCons(first.(bytes := Plus(first.bytes, row.bytes)), rest, connection, kind, start);
        PlusSwap(own, added, sum);
      } else {
        UpsertSum(rest, row, connection, kind, start);
        SumCons(first, Upsert(rest, row), connection, kind, start);
        PlusSwap(own, sum, added);
      }
    }
  }

  lemma {:induction false} UpsertKeys(rows: seq<Row>, row: Row, r: Row)
    requires r in Upsert(rows, row)
    ensures SameKey(r, row.connection, row.start, row.kind) || exists q ::
      q in rows && SameKey(r, q.connection, q.start, q.kind)
  {
    if rows != [] {
      assert rows[0] in rows;
      if !SameKey(rows[0], row.connection, row.start, row.kind) && r in Upsert(rows[1..], row) {
        UpsertKeys(rows[1..], row, r);
        if !SameKey(r, row.connection, row.start, row.kind) {
          var q :| q in rows[1..] && SameKey(r, q.connection, q.start, q.kind);
          assert q in rows;
        }
      } else if r in rows[1..] {
        assert r in rows;
      }
    }
  }

  lemma {:induction false} UpsertUnique(rows: seq<Row>, row: Row)
    requires UniqueRows(rows)
    ensures UniqueRows(Upsert(rows, row))
  {
    if rows != [] && !SameKey(rows[0], row.connection, row.start, row.kind) {
      var rest := Upsert(rows[1..], row);
      UpsertUnique(rows[1..], row);
      forall j | 0 <= j < |rest| ensures !SameKey(rows[0], rest[j].connection, rest[j].start, rest[j].kind) {
        UpsertKeys(rows[1..], row, rest[j]);
        if !SameKey(rest[j], row.connection, row.start, row.kind) {
          var q :| q in rows[1..] && SameKey(rest[j], q.connection, q.start, q.kind);
          var i :| 1 <= i < |rows| && rows[i] == q;
        }
      }
    }
  }

  predicate Old(r: Row, hourlyBefore: int, dailyBefore: int) {
    r.start < if r.kind.Hourly? then hourlyBefore else dailyBefore
  }

  /** The rows retention deletes, or the ones it keeps. */
  function Select(rows: seq<Row>, removed: bool, hourlyBefore: int, dailyBefore: int): seq<Row> {
    if rows == [] then []
    else if Old(rows[0], hourlyBefore, dailyBefore) == removed then
      [rows[0]] + Select(rows[1..], removed, hourlyBefore, dailyBefore)
    else Select(rows[1..], removed, hourlyBefore, dailyBefore)
  }

  lemma {:induction false} SelectSum(rows: seq<Row>, hourlyBefore: int, dailyBefore: int, connection: string,
    kind: Kind, start: Window)
    ensures Sum(rows, connection, kind, start) == Plus(
      Sum(Select(rows, false, hourlyBefore, dailyBefore), connection, kind, start),
      Sum(Select(rows, true, hourlyBefore, dailyBefore), connection, kind, start))
    decreases |rows|
  {
    hide RowBytes, Old, Sum, Plus;
    PlusShuffle(NO_BYTES, NO_BYTES, NO_BYTES);
    if rows == [] {
      SumNone(connection, kind, start);
    } else {
      var r, rest := rows[0], rows[1..];
      SelectSum(rest, hourlyBefore, dailyBefore, connection, kind, start);
      assert rows == [r] + rest;
      SumCons(r, rest, connection, kind, start);
      SumCons(r, Select(rest, Old(r, hourlyBefore, dailyBefore), hourlyBefore, dailyBefore), connection, kind, start);
      PlusShuffle(RowBytes(r, connection, kind, start),
        Sum(Select(rest, false, hourlyBefore, dailyBefore), connection, kind, start),
        Sum(Select(rest, true, hourlyBefore, dailyBefore), connection, kind, start));
    }
  }

  lemma SumNone(connection: string, kind: Kind, start: Window)
    ensures Sum([], connection, kind, start) == NO_BYTES
  {
  }

  /** What retention deletes lies before its limits. */
  lemma {:induction false} SelectOutside(rows: seq<Row>, hourlyBefore: int, dailyBefore: int, connection: string,
    start: int)
    requires dailyBefore <= start
    ensures Sum(Select(rows, true, hourlyBefore, dailyBefore), connection, Daily, From(start)) == NO_BYTES
    decreases |rows|
  {
    hide Sum, Plus;
    PlusShuffle(NO_BYTES, NO_BYTES, NO_BYTES);
    if rows == [] {
      SumNone(connection, Daily, From(start));
    } else {
      SelectOutside(rows[1..], hourlyBefore, dailyBefore, connection, start);
      SumCons(rows[0], Select(rows[1..], true, hourlyBefore, dailyBefore), connection, Daily, From(start));
    }
  }

  lemma {:induction false} SelectUnique(rows: seq<Row>, removed: bool, hourlyBefore: int, dailyBefore: int)
    requires UniqueRows(rows)
    ensures UniqueRows(Select(rows, removed, hourlyBefore, dailyBefore))
    ensures forall r :: r in Select(rows, removed, hourlyBefore, dailyBefore) ==> r in rows
  {
    if rows != [] {
      var rest := Select(rows[1..], removed, hourlyBefore, dailyBefore);
      SelectUnique(rows[1..], removed, hourlyBefore, dailyBefore);
      forall j | 0 <= j < |rest| ensures !SameKey(rows[0], rest[j].connection, rest[j].start, rest[j].kind) {
        assert rest[j] in rows[1..];
        var i :| 1 <= i < |rows| && rows[i] == rest[j];
      }
    }
  }

  /** Retention keeps the rows from its limits on. */
  lemma {:induction false} SelectKeeps(rows: seq<Row>, hourlyBefore: int, dailyBefore: int)
    ensures forall r :: r in Select(rows, false, hourlyBefore, dailyBefore) <==>
      r in rows && r.start >= if r.kind.Hourly? then hourlyBefore else dailyBefore
  {
    if rows != [] {
      SelectKeeps(rows[1..], hourlyBefore, dailyBefore);
      assert forall r :: r in rows <==> r == rows[0] || r in rows[1..];
    }
  }

  lemma {:induction false} SumAppend(a: seq<Row>, b: seq<Row>, connection: string, kind: Kind, start: Window)
    ensures Sum(a + b, connection, kind, start) ==
      Plus(Sum(a, connection, kind, start), Sum(b, connection, kind, start))
  {
    hide RowBytes;
    if a == [] {
      assert a + b == b;
    } else {
      assert a + b == [a[0]] + (a[1..] + b);
      SumAppend(a[1..], b, connection, kind, start);
      SumCons(a[0], a[1..] + b, connection, kind, start);
    }
  }

  // Everything ever credited ---------------------------------------------------------------------------------

  datatype Credit = Credit(connection: string, time: int, bytes: Bytes)

  function CreditBytes(c: Credit, connection: string, kind: Kind, start: Window): Bytes {
    if c.connection == connection && Within(start, Bucket(kind, c.time)) then c.bytes else NO_BYTES
  }

  function CreditSum(credits: seq<Credit>, connection: string, kind: Kind, start: Window): Bytes {
    if credits == [] then NO_BYTES
    else
      var k := |credits| - 1;
      Plus(CreditSum(credits[..k], connection, kind, start), CreditBytes(credits[k], connection, kind, start))
  }

  lemma CreditSnoc(credits: seq<Credit>, c: Credit, connection: string, kind: Kind, start: Window)
    ensures CreditSum(credits + [c], connection, kind, start) ==
      Plus(CreditSum(credits, connection, kind, start), CreditBytes(c, connection, kind, start))
  {
    assert (credits + [c])[..|credits|] == credits;
  }

  /** The midnight before a credit lies in the window. */
  ghost predicate OnDays(start: int, time: int) {
    exists midnight :: StartsDay(midnight, time) && start <= midnight
  }

  /** All that was credited to a connection on the days that begin at or after this time. */
  ghost function CreditedOnDays(credits: seq<Credit>, connection: string, start: int): int {
    if credits == [] then 0
    else
      var c := credits[|credits| - 1];
      CreditedOnDays(credits[..|credits| - 1], connection, start) +
        if c.connection == connection && OnDays(start, c.time) then c.bytes.rx + c.bytes.tx else 0
  }

  lemma {:induction false} CreditSumOnDays(credits: seq<Credit>, connection: string, start: int)
    ensures var sum := CreditSum(credits, connection, Daily, From(start));
      sum.rx + sum.tx == CreditedOnDays(credits, connection, start)
  {
    hide Bucket, StartsDay;
    if credits != [] {
      var k := |credits| - 1;
      CreditSumOnDays(credits[..k], connection, start);
      BucketOnDays(credits[k].time, start);
    }
  }

  lemma BucketOnDays(time: int, start: int)
    ensures Bucket(Daily, time) >= start <==> OnDays(start, time)
  {
    hide Bucket, StartsDay;
    BucketStarts(time);
    if m :| StartsDay(m, time) && start <= m { OneMidnight(m, Bucket(Daily, time), time); }
  }

  /** The rows, with those retention has deleted, hold exactly what was credited, bucket by bucket. */
  ghost predicate Recorded(rows: seq<Row>, deleted: seq<Row>, credits: seq<Credit>) {
    forall connection, kind, start ::
      Plus(Sum(rows, connection, kind, start), Sum(deleted, connection, kind, start)) ==
        CreditSum(credits, connection, kind, start)
  }

  lemma RecordedCredit(rows: seq<Row>, deleted: seq<Row>, credits: seq<Credit>, c: Credit)
    requires Recorded(rows, deleted, credits)
    ensures Recorded(
      Upsert(Upsert(rows, Row(c.connection, Bucket(Hourly, c.time), Hourly, c.bytes)),
        Row(c.connection, Bucket(Daily, c.time), Daily, c.bytes)),
      deleted, credits + [c])
  {
    hide Sum, CreditSum, Upsert, Bucket;
    var hour, day := Row(c.connection, Bucket(Hourly, c.time), Hourly, c.bytes),
      Row(c.connection, Bucket(Daily, c.time), Daily, c.bytes);
    forall connection, kind, start
      ensures Plus(Sum(Upsert(Upsert(rows, hour), day), connection, kind, start), Sum(deleted, connection, kind, start))
        == CreditSum(credits + [c], connection, kind, start)
    {
      UpsertSum(rows, hour, connection, kind, start);
      UpsertSum(Upsert(rows, hour), day, connection, kind, start);
      CreditSnoc(credits, c, connection, kind, start);
    }
  }

  lemma RecordedPrune(rows: seq<Row>, deleted: seq<Row>, credits: seq<Credit>, hourlyBefore: int, dailyBefore: int)
    requires Recorded(rows, deleted, credits)
    ensures Recorded(Select(rows, false, hourlyBefore, dailyBefore), deleted +
      Select(rows, true, hourlyBefore, dailyBefore), credits)
  {
    hide Sum, CreditSum, Select;
    var kept, gone := Select(rows, false, hourlyBefore, dailyBefore), Select(rows, true, hourlyBefore, dailyBefore);
    forall connection, kind, start
      ensures Plus(Sum(kept, connection, kind, start), Sum(deleted + gone, connection, kind, start)) ==
        CreditSum(credits, connection, kind, start)
    {
      SelectSum(rows, hourlyBefore, dailyBefore, connection, kind, start);
      SumAppend(deleted, gone, connection, kind, start);
    }
  }

  // The repository ---------------------------------------------------------------------------------------------

  /** What has been credited to a connection from a point of the history on. */
  function CreditedFrom(credits: seq<Credit>, from: nat, connection: string): int {
    var all, early := CreditSum(credits, connection, Daily, Always),
      CreditSum(credits[..if from <= |credits| then from else |credits|], connection, Daily, Always);
    all.rx + all.tx - early.rx - early.tx
  }

  /** One connection: its counters are its samples' and its override usage is what was credited since the override. */
  ghost predicate Balanced(c: Connection, samples: seq<Bytes>, credits: seq<Credit>, id: string, overridden: nat) {
    && c.total == Credited(samples) == CreditSum(credits, id, Hourly, Always) == CreditSum(credits, id, Daily, Always)
    && c.counter == LastSample(samples) && c.epoch == Resets(samples)
    && c.counter.rx >= 0 && c.counter.tx >= 0
    && overridden <= |credits| && c.overrideUsed == CreditedFrom(credits, overridden, id)
  }

  /** The row after one more sample. */
  function Sampled(c: Connection, sample: Bytes): Connection {
    var delta := Delta(c.counter, sample);
    c.(total := Plus(c.total, delta), counter := sample, epoch := c.epoch +
      (if IsReset(c.counter, sample) then 1 else 0),
       overrideUsed := c.overrideUsed + delta.rx + delta.tx)
  }

  /** A sample credits what both counters have grown, or all of it if either has fallen, and counts a new epoch then. */
  predicate Counts(c: Connection, sample: Bytes, delta: Bytes, next: Connection) {
    var reset := sample.rx < c.counter.rx || sample.tx < c.counter.tx;
    && (reset ==> delta == sample)
    && (!reset ==> c.counter.rx + delta.rx == sample.rx && c.counter.tx + delta.tx == sample.tx)
    && next.total.rx == c.total.rx + delta.rx && next.total.tx == c.total.tx + delta.tx
    && next.overrideUsed == c.overrideUsed + delta.rx + delta.tx
    && next == c.(total := next.total, counter := sample, epoch := if reset then c.epoch + 1 else c.epoch,
      overrideUsed := next.overrideUsed)
  }

  lemma SampledCounts(c: Connection, sample: Bytes)
    ensures Counts(c, sample, Delta(c.counter, sample), Sampled(c, sample))
  {
  }

  lemma SampleBalances(c: Connection, samples: seq<Bytes>, credits: seq<Credit>, id: string, overridden: nat,
    sample: Bytes, time: int)
    requires Balanced(c, samples, credits, id, overridden) && sample.rx >= 0 && sample.tx >= 0
    ensures Balanced(Sampled(c, sample), samples + [sample], credits +
      [Credit(id, time, Delta(c.counter, sample))], id, overridden)
  {
    hide CreditSum, Delta, IsReset;
    var more, credit := samples + [sample], Credit(id, time, Delta(c.counter, sample));
    assert more[..|more| - 1] == samples;
    CreditSnoc(credits, credit, id, Hourly, Always);
    CreditSnoc(credits, credit, id, Daily, Always);
    assert (credits + [credit])[..overridden] == credits[..overridden];
  }

  lemma OtherBalances(c: Connection, samples: seq<Bytes>, credits: seq<Credit>, id: string, overridden: nat,
    credit: Credit)
    requires Balanced(c, samples, credits, id, overridden) && credit.connection != id
    ensures Balanced(c, samples, credits + [credit], id, overridden)
  {
    hide CreditSum, Credited, Resets;
    CreditSnoc(credits, credit, id, Hourly, Always);
    CreditSnoc(credits, credit, id, Daily, Always);
    PlusShuffle(c.total, NO_BYTES, NO_BYTES);
    assert (credits + [credit])[..overridden] == credits[..overridden];
  }

  lemma OthersBalance(connections: map<string, Connection>, samples: map<string, seq<Bytes>>, credits: seq<Credit>,
    overridden: map<string, nat>, credit: Credit)
    requires connections.Keys == samples.Keys == overridden.Keys
    requires forall id :: id in connections ==> Balanced(connections[id], samples[id], credits, id, overridden[id])
    ensures forall id :: id in connections && id != credit.connection ==>
      Balanced(connections[id], samples[id], credits + [credit], id, overridden[id])
  {
    hide Balanced;
    forall id | id in connections && id != credit.connection
      ensures Balanced(connections[id], samples[id], credits + [credit], id, overridden[id])
    {
      OtherBalances(connections[id], samples[id], credits, id, overridden[id], credit);
    }
  }

  ghost predicate Known(credits: seq<Credit>, ids: set<string>) {
    forall i :: 0 <= i < |credits| ==> credits[i].connection in ids
  }

  datatype Event =
    | Create(id: string, expiresAt: Option<int>)
    | Sample(id: string, bytes: Bytes, time: int)
    | Prune(hourlyBefore: int, dailyBefore: int)
    | Override(id: string, previous: Status, time: int)

  /** Retention has deleted no row of a window that begins here. */
  ghost predicate Uncut(deleted: seq<Row>, start: int) {
    forall id :: Sum(deleted, id, Daily, From(start)) == NO_BYTES
  }

  /** No retention limit of these events lies beyond the beginning of the window. */
  predicate Retains(events: seq<Event>, start: int) {
    forall k :: 0 <= k < |events| && events[k].Prune? ==> events[k].dailyBefore <= start
  }

  lemma RetainsStep(events: seq<Event>, i: nat)
    requires i < |events|
    ensures forall start :: Retains(events[..i + 1], start) ==>
      Retains(events[..i], start) && (events[i].Prune? ==> events[i].dailyBefore <= start)
  {
    forall start | Retains(events[..i + 1], start)
      ensures Retains(events[..i], start) && (events[i].Prune? ==> events[i].dailyBefore <= start)
    {
      assert events[..i + 1][i] == events[i];
      assert forall k :: 0 <= k < i ==> events[..i + 1][k] == events[..i][k];
    }
  }

  lemma UncutSum(deleted: seq<Row>, id: string, start: int)
    requires Uncut(deleted, start)
    ensures Sum(deleted, id, Daily, From(start)) == NO_BYTES
  {
    hide Sum;
  }

  lemma UncutStep(rows: seq<Row>, deleted: seq<Row>, hourlyBefore: int, dailyBefore: int, start: int)
    requires dailyBefore <= start && Uncut(deleted, start)
    ensures Uncut(deleted + Select(rows, true, hourlyBefore, dailyBefore), start)
  {
    hide Sum, Select, Plus;
    var gone := Select(rows, true, hourlyBefore, dailyBefore);
    forall id ensures Sum(deleted + gone, id, Daily, From(start)) == NO_BYTES {
      SumAppend(deleted, gone, id, Daily, From(start));
      SelectOutside(rows, hourlyBefore, dailyBefore, id, start);
      PlusShuffle(NO_BYTES, NO_BYTES, NO_BYTES);
    }
  }

  class Repository {
    var connections: map<string, Connection>
    var rollups: seq<Row>

    // Every sample of a connection, every credit in order, the rows retention has deleted, and for each connection
    // how many credits there were at its last override.
    ghost var samples: map<string, seq<Bytes>>
    ghost var credits: seq<Credit>
    ghost var deleted: seq<Row>
    ghost var overridden: map<string, nat>

    ghost predicate Valid()
      reads this
    {
      && UniqueRows(rollups)
      && Recorded(rollups, deleted, credits)
      && connections.Keys == samples.Keys == overridden.Keys
      && (forall id :: id in connections ==> Balanced(connections[id], samples[id], credits, id, overridden[id]))
      && Known(credits, connections.Keys)
    }

    constructor ()
      ensures Valid() && connections == map[] && rollups == [] && deleted == []
    {
      hide Sum, CreditSum, Recorded;
      NothingRecorded();
      connections, rollups := map[], [];
      samples, credits, deleted, overridden := map[], [], [], map[];
    }

    method CreateConnection(id: string, expiresAt: Option<int>) returns (ok: bool)
      requires Valid()
      modifies this
      ensures Valid() && ok == (id !in old(connections)) && rollups == old(rollups) && credits == old(credits)
        && deleted == old(deleted)
      ensures connections ==
        if ok then old(connections)[id := Connection(NO_BYTES, NO_BYTES, 0, Active, expiresAt, None, 0)]
          else old(connections)
    {
      hide Sum, Recorded, UniqueRows, Balanced;
      ok := id !in connections;
      if ok {
        NewBalances(credits, id, expiresAt);
        connections := connections[id := Connection(NO_BYTES, NO_BYTES, 0, Active, expiresAt, None, 0)];
        samples, overridden := samples[id := []], overridden[id := |credits|];
      }
    }

    /** INSERT, or on a conflict of the primary key the update of the row that is there: by the hour and by the day. */
    method AddToBuckets(id: string, now: int, delta: Bytes)
      requires UniqueRows(rollups)
      modifies this`rollups
      ensures rollups ==
        Upsert(Upsert(old(rollups), Row(id, Bucket(Hourly, now), Hourly, delta)),
          Row(id, Bucket(Daily, now), Daily, delta))
      ensures UniqueRows(rollups)
      ensures exists hour, day ::
        StartsHour(hour, now) && StartsDay(day, now) && Booked(old(rollups), rollups, id, hour, day, delta)
    {
      hide UniqueRows, Upsert, Bucket, StartsHour, StartsDay, Booked;
      BucketStarts(now);
      UpsertsBook(rollups, id, Bucket(Hourly, now), Bucket(Daily, now), delta);
      UpsertUnique(rollups, Row(id, Bucket(Hourly, now), Hourly, delta));
      rollups := Upsert(rollups, Row(id, Bucket(Hourly, now), Hourly, delta));
      UpsertUnique(rollups, Row(id, Bucket(Daily, now), Daily, delta));
      rollups := Upsert(rollups, Row(id, Bucket(Daily, now), Daily, delta));
    }

    /** One sample of one connection, in one transaction. */
    method UpdateTraffic(id: string, sample: Bytes, now: int)
      requires Valid() && sample.rx >= 0 && sample.tx >= 0
      modifies this
      ensures Valid() && connections.Keys == old(connections.Keys)
      ensures forall x :: x in connections && x != id ==> connections[x] == old(connections)[x]
      ensures id !in connections ==> rollups == old(rollups) && credits == old(credits)
      ensures id in connections ==>
        && AtMost(old(connections)[id].total, connections[id].total)
        && connections[id] == Sampled(old(connections)[id], sample)
        && samples[id] == old(samples)[id] + [sample]
        && credits == old(credits) + [Credit(id, now, Delta(old(connections)[id].counter, sample))]
      // The row of the full hour and the row of the midnight before now have what the connection is credited.
      ensures id in connections ==> exists hour, day, delta ::
        && StartsHour(hour, now) && StartsDay(day, now) && Booked(old(rollups), rollups, id, hour, day, delta)
        && Counts(old(connections)[id], sample, delta, connections[id])
        && credits == old(credits) + [Credit(id, now, delta)]
      ensures deleted == old(deleted) && overridden == old(overridden)
    {
      hide Sum, Recorded, UniqueRows, Balanced, Upsert, Bucket, Plus, Delta, Sampled, AtMost, Known, StartsHour,
        StartsDay, Booked, Counts;
      if id !in connections { return; }
      var c := connections[id];
      SampledCounts(c, sample);
      CounterOk(c, samples[id], credits, id, overridden[id]);
      var next, delta := Count(c, sample);
      ghost var credit := Credit(id, now, delta);
      SampleBalances(c, samples[id], credits, id, overridden[id], sample, now);
      OthersBalance(connections, samples, credits, overridden, credit);
      KnownStep(credits, connections.Keys, credit);
      RecordedCredit(rollups, deleted, credits, credit);
      assert connections[id := next].Keys == connections.Keys;
      connections := connections[id := next];
      AddToBuckets(id, now, delta);
      samples, credits := samples[id := samples[id] + [sample]], credits + [credit];
    }

    method PruneTraffic(hourlyBefore: int, dailyBefore: int)
      requires Valid()
      modifies this`rollups, this`deleted
      ensures Valid() && rollups == Select(old(rollups), false, hourlyBefore, dailyBefore)
      ensures deleted == old(deleted) + Select(old(rollups), true, hourlyBefore, dailyBefore)
      ensures forall r :: r in rollups <==>
        r in old(rollups) && r.start >= if r.kind.Hourly? then hourlyBefore else dailyBefore
      // No quota window that begins at or after the limit changes.
      ensures forall id, start :: dailyBefore <= start ==>
        Sum(rollups, id, Daily, From(start)) == Sum(old(rollups), id, Daily, From(start))
      ensures forall start :: dailyBefore <= start && Uncut(old(deleted), start) ==> Uncut(deleted, start)
    {
      hide Sum, Recorded, UniqueRows, Balanced, Select, Plus, Uncut;
      RecordedPrune(rollups, deleted, credits, hourlyBefore, dailyBefore);
      SelectUnique(rollups, false, hourlyBefore, dailyBefore);
      SelectKeeps(rollups, hourlyBefore, dailyBefore);
      ghost var gone := Select(rollups, true, hourlyBefore, dailyBefore);
      forall start | dailyBefore <= start && Uncut(deleted, start) ensures Uncut(deleted + gone, start) {
        UncutStep(rollups, deleted, hourlyBefore, dailyBefore, start);
      }
      forall id, start | dailyBefore <= start
        ensures Sum(Select(rollups, false, hourlyBefore, dailyBefore), id, Daily, From(start)) ==
          Sum(rollups, id, Daily, From(start))
      {
        SelectSum(rollups, hourlyBefore, dailyBefore, id, Daily, From(start));
        SelectOutside(rollups, hourlyBefore, dailyBefore, id, start);
        PlusShuffle(Sum(Select(rollups, false, hourlyBefore, dailyBefore), id, Daily, From(start)), NO_BYTES, NO_BYTES);
      }
      rollups := Select(rollups, false, hourlyBefore, dailyBefore);
      deleted := deleted + gone;
    }

    method ApplyConnectionOverride(id: string, previous: Status, now: int)
      requires Valid()
      modifies this`connections, this`overridden
      ensures Valid() && connections.Keys == old(connections.Keys)
      ensures forall x :: x in connections && x != id ==> connections[x] == old(connections)[x]
      ensures id in connections ==>
        var c := old(connections)[id];
        connections[id] ==
          if previous.QuotaExceeded? then c.(status := Active, overrideAt := Some(now), overrideUsed := 0)
          else if previous.Expired? then c.(status := Active, expiresAt := None)
          else c.(status := Active)
      ensures overridden == if id in connections && previous.QuotaExceeded? then old(overridden)[id := |credits|]
        else old(overridden)
    {
      hide Sum, Recorded, UniqueRows, Balanced, Known;
      if id !in connections { return; }
      var c := connections[id];
      OverrideBalances(c, samples[id], credits, id, overridden[id], Some(now));
      StatusBalances(c, samples[id], credits, id, overridden[id], Active, None);
      StatusBalances(c, samples[id], credits, id, overridden[id], Active, c.expiresAt);
      ghost var books := overridden;
      if previous.QuotaExceeded? {
        c := c.(status := Active, overrideAt := Some(now), overrideUsed := 0);
        overridden := overridden[id := |credits|];
      } else if previous.Expired? {
        c := c.(status := Active, expiresAt := None);
      } else {
        c := c.(status := Active);
      }
      assert connections[id := c].Keys == connections.Keys && overridden.Keys == books.Keys;
      connections := connections[id := c];
    }

    /**
     * Any run: whatever happens to a connection, its total never falls, and a quota window that begins no earlier than
     * every retention limit of the run holds exactly what was credited on its days.
     */
    method Run(events: seq<Event>)
      requires Valid() && forall e :: e in events && e.Sample? ==> e.bytes.rx >= 0 && e.bytes.tx >= 0
      modifies this
      ensures Valid() && old(credits) <= credits && old(deleted) <= deleted
      ensures forall id :: id in old(connections) ==>
        id in connections && AtMost(old(connections)[id].total, connections[id].total)
      ensures forall id, start :: Uncut(old(deleted), start) && Retains(events, start) ==>
        Sum(rollups, id, Daily, From(start)) == CreditSum(credits, id, Daily, From(start))
    {
      hide Sum, CreditSum, Recorded, UniqueRows, Balanced, Known, Upsert, Select, Plus, Delta, Uncut;
      for i := 0 to |events|
        invariant Valid() && old(credits) <= credits && old(deleted) <= deleted
        invariant forall id :: id in old(connections) ==>
          id in connections && AtMost(old(connections)[id].total, connections[id].total)
        invariant forall start :: Uncut(old(deleted), start) && Retains(events[..i], start) ==> Uncut(deleted, start)
      {
        assert events[i] in events;
        RetainsStep(events, i);
        match events[i]
        case Create(id, expiresAt) => var created := CreateConnection(id, expiresAt);
        case Sample(id, bytes, time) => UpdateTraffic(id, bytes, time);
        case Prune(hourlyBefore, dailyBefore) => PruneTraffic(hourlyBefore, dailyBefore);
        case Override(id, previous, time) => ApplyConnectionOverride(id, previous, time);
      }
      assert events[..|events|] == events;
      forall id, start | Uncut(deleted, start)
        ensures Sum(rollups, id, Daily, From(start)) == CreditSum(credits, id, Daily, From(start))
      {
        UncutSum(deleted, id, start);
        WindowIsCredited(id, start);
      }
    }

    /** What the projection reports as used: the total, the window, or what was used since an override in the window. */
    method UsedBytes(id: string, period: Option<Period>, monthAgo: int, monthStart: int) returns (used: int)
      requires Valid() && id in connections
      ensures var c := connections[id];
        used ==
        if period.Some? && c.overrideAt.Some? &&
          (period.value.Lifetime? || c.overrideAt.value >= (if period.value.Month? then monthAgo else monthStart))
        then CreditedFrom(credits, overridden[id], id)
        else if period.Some? && !period.value.Lifetime?
        then Window(id, if period.value.Month? then monthAgo else monthStart)
        else c.total.rx + c.total.tx
      // In a window that retention has not cut into: the credits of the days that begin in it.
      ensures forall start ::
        Sum(deleted, id, Daily, From(start)) == NO_BYTES ==> Window(id, start) == CreditedOnDays(credits, id, start)
    {
      hide Sum, Recorded, UniqueRows, CreditSum, Credited, CreditedOnDays;
      forall start | Sum(deleted, id, Daily, From(start)) == NO_BYTES
        ensures Window(id, start) == CreditedOnDays(credits, id, start)
      {
        WindowIsCredited(id, start);
      }
      var c := connections[id];
      used := c.total.rx + c.total.tx;
      if period.Some? && !period.value.Lifetime? {
        var start := if period.value.Month? then monthAgo else monthStart;
        used := Window(id, start);
      }
      var applies := period.Some? && c.overrideAt.Some? && match period.value {
        case Lifetime => true
        case Month => c.overrideAt.value >= monthAgo
        case CalendarMonth => c.overrideAt.value >= monthStart
      };
      if applies { used := c.overrideUsed; }
    }

    /** The SQL sum over the daily rows of a window. */
    function Window(id: string, start: int): int
      reads this
    {
      Sum(rollups, id, Daily, From(start)).rx + Sum(rollups, id, Daily, From(start)).tx
    }

    /**
     * Conservation: a total is what its hourly rows and what its daily rows hold, those deleted included; it is the
     * last samples of all closed counter epochs and the current counter; and the override usage is what was
     * credited since the override.
     */
    lemma Conserved(id: string)
      requires Valid() && id in connections
      ensures connections[id].total == Plus(Sum(rollups, id, Hourly, Always), Sum(deleted, id, Hourly, Always))
      ensures connections[id].total == Plus(Sum(rollups, id, Daily, Always), Sum(deleted, id, Daily, Always))
      ensures connections[id].total == Plus(ClosedEpochs(samples[id]), connections[id].counter)
      ensures connections[id].overrideUsed == CreditedFrom(credits, overridden[id], id)
    {
      hide Sum, CreditSum, UniqueRows;
      assert Balanced(connections[id], samples[id], credits, id, overridden[id]);
      CreditedByEpochs(samples[id]);
    }

    /** A quota window that retention has not cut into holds exactly what was credited on the days that begin in it. */
    lemma WindowIsCredited(id: string, start: int)
      requires Valid() && Sum(deleted, id, Daily, From(start)) == NO_BYTES
      ensures Sum(rollups, id, Daily, From(start)) == CreditSum(credits, id, Daily, From(start))
      ensures Window(id, start) == CreditedOnDays(credits, id, start)
    {
      hide Sum, CreditSum, UniqueRows, Plus, CreditedOnDays;
      CreditSumOnDays(credits, id, start);
      PlusShuffle(Sum(rollups, id, Daily, From(start)), NO_BYTES, NO_BYTES);
    }
  }

  /** The deltas of a sample, and the row with them added. */
  method Count(c: Connection, sample: Bytes) returns (next: Connection, delta: Bytes)
    requires c.counter.rx >= 0 && c.counter.tx >= 0 && sample.rx >= 0 && sample.tx >= 0
    ensures next == Sampled(c, sample) && delta == Delta(c.counter, sample) && AtMost(c.total, next.total)
  {
    var reset := sample.rx < c.counter.rx || sample.tx < c.counter.tx;
    delta := if reset then sample else Bytes(sample.rx - c.counter.rx, sample.tx - c.counter.tx);
    next := c.(total := Plus(c.total, delta), counter := sample, epoch := c.epoch + (if reset then 1 else 0),
               overrideUsed := c.overrideUsed + delta.rx + delta.tx);
  }

  lemma KnownStep(credits: seq<Credit>, ids: set<string>, c: Credit)
    requires Known(credits, ids) && c.connection in ids
    ensures Known(credits + [c], ids)
  {
  }

  lemma CounterOk(c: Connection, samples: seq<Bytes>, credits: seq<Credit>, id: string, overridden: nat)
    requires Balanced(c, samples, credits, id, overridden)
    ensures c.counter.rx >= 0 && c.counter.tx >= 0
  {
  }

  lemma {:induction false} NoCredit(credits: seq<Credit>, id: string, kind: Kind, start: Window)
    requires forall i :: 0 <= i < |credits| ==> credits[i].connection != id
    ensures CreditSum(credits, id, kind, start) == NO_BYTES
  {
    hide Plus, Bucket;
    PlusShuffle(NO_BYTES, NO_BYTES, NO_BYTES);
    if credits != [] {
      NoCredit(credits[..|credits| - 1], id, kind, start);
    }
  }

  lemma NewBalances(credits: seq<Credit>, id: string, expiresAt: Option<int>)
    requires forall i :: 0 <= i < |credits| ==> credits[i].connection != id
    ensures Balanced(Connection(NO_BYTES, NO_BYTES, 0, Active, expiresAt, None, 0), [], credits, id, |credits|)
  {
    hide CreditSum;
    NoCredit(credits, id, Hourly, Always);
    NoCredit(credits, id, Daily, Always);
    assert credits[..|credits|] == credits;
  }

  /** An override starts its usage at nothing. */
  lemma OverrideBalances(c: Connection, samples: seq<Bytes>, credits: seq<Credit>, id: string, overridden: nat,
    now: Option<int>)
    requires Balanced(c, samples, credits, id, overridden)
    ensures Balanced(c.(status := Active, overrideAt := now, overrideUsed := 0), samples, credits, id, |credits|)
  {
    hide CreditSum, Credited, Resets;
    assert credits[..|credits|] == credits;
  }

  lemma StatusBalances(c: Connection, samples: seq<Bytes>, credits: seq<Credit>, id: string, overridden: nat,
    status: Status, expiresAt: Option<int>)
    requires Balanced(c, samples, credits, id, overridden)
    ensures Balanced(c.(status := status, expiresAt := expiresAt), samples, credits, id, overridden)
  {
    hide CreditSum, Credited, Resets, CreditedFrom;
  }

  lemma NothingRecorded()
    ensures Recorded([], [], [])
  {
  }

  // Two accountants and the truth ------------------------------------------------------------------------------

  predicate Counted(b: Bytes) {
    b.rx >= 0 && b.tx >= 0
  }

  /**
   * Between two samples a device moves some traffic. Its counters either go up by it, or have both started again from
   * zero in between, and then show some part of it.
   */
  predicate Moves(last: Bytes, sample: Bytes, traffic: Bytes) {
    Counted(traffic) && Counted(last) && Counted(sample) && (sample == Plus(last, traffic) || AtMost(sample, traffic))
  }

  function TrueTotal(traffic: seq<Bytes>): Bytes {
    if traffic == [] then NO_BYTES else Plus(TrueTotal(traffic[..|traffic| - 1]), traffic[|traffic| - 1])
  }

  function Before(base: Bytes, samples: seq<Bytes>, i: nat): Bytes
    requires i <= |samples|
  {
    if i == 0 then base else samples[i - 1]
  }

  /** A device read after each of these amounts of traffic, starting from counters at base. */
  predicate Device(base: Bytes, samples: seq<Bytes>, traffic: seq<Bytes>) {
    && |samples| == |traffic| && Counted(base)
    && forall i :: 0 <= i < |samples| ==> Moves(Before(base, samples, i), samples[i], traffic[i])
  }

  function LastFrom(base: Bytes, samples: seq<Bytes>): Bytes {
    if samples == [] then base else samples[|samples| - 1]
  }

  /** What the Panel credits from a base on. */
  function PanelCredits(base: Bytes, samples: seq<Bytes>): Bytes {
    if samples == [] then NO_BYTES
    else
      var before := samples[..|samples| - 1];
      Plus(PanelCredits(base, before), Delta(LastFrom(base, before), samples[|samples| - 1]))
  }

  /** The node looks at each counter alone. */
  function NodeDelta(last: Bytes, sample: Bytes): Bytes {
    Bytes(if sample.rx >= last.rx then sample.rx - last.rx
      else sample.rx, if sample.tx >= last.tx then sample.tx - last.tx else sample.tx)
  }

  function NodeCredits(base: Bytes, samples: seq<Bytes>): Bytes {
    if samples == [] then NO_BYTES
    else
      var before := samples[..|samples| - 1];
      Plus(NodeCredits(base, before), NodeDelta(LastFrom(base, before), samples[|samples| - 1]))
  }

  lemma DeviceBefore(base: Bytes, samples: seq<Bytes>, traffic: seq<Bytes>)
    requires Device(base, samples, traffic) && samples != []
    ensures var k := |samples| - 1;
      Device(base, samples[..k], traffic[..k]) && Moves(LastFrom(base, samples[..k]), samples[k], traffic[k])
  {
    hide Moves;
    var k := |samples| - 1;
    forall i | 0 <= i < k ensures Moves(Before(base, samples[..k], i), samples[..k][i], traffic[..k][i]) {
      assert Moves(Before(base, samples, i), samples[i], traffic[i]);
    }
    assert Moves(Before(base, samples, k), samples[k], traffic[k]);
  }

  lemma DeltaBound(last: Bytes, sample: Bytes, traffic: Bytes)
    requires Moves(last, sample, traffic)
    ensures AtMost(NodeDelta(last, sample), Delta(last, sample)) && AtMost(Delta(last, sample), traffic)
    ensures Counted(NodeDelta(last, sample))
    ensures sample == Plus(last, traffic) ==> NodeDelta(last, sample) == Delta(last, sample) == traffic
  {
  }

  /** Neither accountant credits more than the traffic there was, and the node never more than the Panel. */
  lemma {:induction false} AccountingBound(base: Bytes, samples: seq<Bytes>, traffic: seq<Bytes>)
    requires Device(base, samples, traffic)
    ensures Counted(NodeCredits(base, samples))
    ensures AtMost(NodeCredits(base, samples), PanelCredits(base, samples))
    ensures AtMost(PanelCredits(base, samples), TrueTotal(traffic))
  {
    hide Moves, Delta, NodeDelta;
    if samples != [] {
      var k := |samples| - 1;
      DeviceBefore(base, samples, traffic);
      AccountingBound(base, samples[..k], traffic[..k]);
      DeltaBound(LastFrom(base, samples[..k]), samples[k], traffic[k]);
    }
  }

  predicate NoResets(base: Bytes, samples: seq<Bytes>, traffic: seq<Bytes>)
    requires |samples| == |traffic|
  {
    forall i :: 0 <= i < |samples| ==> samples[i] == Plus(Before(base, samples, i), traffic[i])
  }

  /** Without resets both are exact. */
  lemma {:induction false} ExactWithoutResets(base: Bytes, samples: seq<Bytes>, traffic: seq<Bytes>)
    requires Device(base, samples, traffic) && NoResets(base, samples, traffic)
    ensures NodeCredits(base, samples) == PanelCredits(base, samples) == TrueTotal(traffic)
  {
    hide Moves, Delta, NodeDelta, Plus;
    if samples != [] {
      var k := |samples| - 1;
      DeviceBefore(base, samples, traffic);
      forall i | 0 <= i < k ensures samples[..k][i] == Plus(Before(base, samples[..k], i), traffic[..k][i]) {
        assert samples[i] == Plus(Before(base, samples, i), traffic[i]);
      }
      ExactWithoutResets(base, samples[..k], traffic[..k]);
      DeltaBound(LastFrom(base, samples[..k]), samples[k], traffic[k]);
      assert samples[k] == Plus(Before(base, samples, k), traffic[k]);
    }
  }

  /** A new connection is accounted by the Panel from counters at zero. */
  lemma {:induction false} CreditedFromZero(samples: seq<Bytes>)
    ensures Credited(samples) == PanelCredits(NO_BYTES, samples)
  {
    if samples != [] { CreditedFromZero(samples[..|samples| - 1]); }
  }
}
