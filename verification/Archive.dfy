/**
 The route-journal archive (bench/route_journal_archive.py): overlapping reads of
 growing container logs stored once per key, and day exports of the result.
 */
module Archive {
  import opened Common

  datatype Kind = Start | Finish

  // A journal record; `body` stands for its remaining fields.
  datatype Record = Record(seqNo: nat, kind: Kind, unixMs: nat, body: string)

  // A timestamped log line, with the journal record it carries, if any.
  datatype LogLine = LogLine(stamp: int, record: Option<Record>)

  type Log = seq<LogLine>

  // Primary key of the records table.
  datatype Key = Key(container: string, seqNo: nat, kind: Kind)

  datatype Row = Row(stamp: int, record: Record)

  type Table = map<Key, Row>

  function KeyOf(container: string, r: Record): Key { Key(container, r.seqNo, r.kind) }

  // ----- Insert or ignore

  function Insert(rows: Table, container: string, line: LogLine): Table {
    match line.record
    case None => rows
    case Some(r) =>
      if KeyOf(container, r) in rows then rows else rows[KeyOf(container, r) := Row(line.stamp, r)]
  }

  function InsertAll(rows: Table, container: string, log: Log): Table {
    if log == [] then rows else Insert(InsertAll(rows, container, log[..|log| - 1]), container, log[|log| - 1])
  }

  lemma {:induction false} InsertConcat(rows: Table, container: string, a: Log, b: Log)
    ensures InsertAll(rows, container, a + b) == InsertAll(InsertAll(rows, container, a), container, b)
  {
    if b == [] {
      assert a + b == a;
    } else {
      assert (a + b)[..|a + b| - 1] == a + b[..|b| - 1];
      InsertConcat(rows, container, a, b[..|b| - 1]);
    }
  }

  ghost predicate HoldsAll(rows: Table, container: string, log: Log) {
    forall i :: 0 <= i < |log| && log[i].record.Some? ==> KeyOf(container, log[i].record.value) in rows
  }

  // Reading lines again that are already stored changes nothing.
  lemma {:induction false} RereadIsIgnored(rows: Table, container: string, log: Log)
    requires HoldsAll(rows, container, log)
    ensures InsertAll(rows, container, log) == rows
  {
    if log != [] { RereadIsIgnored(rows, container, log[..|log| - 1]); }
  }

  lemma {:induction false} StoredAfter(rows: Table, container: string, log: Log)
    ensures HoldsAll(InsertAll(rows, container, log), container, log)
    ensures forall key :: key in rows ==>
              key in InsertAll(rows, container, log) && InsertAll(rows, container, log)[key] == rows[key]
  {
    if log != [] {
      StoredAfter(rows, container, log[..|log| - 1]);
      forall i | 0 <= i < |log| && log[i].record.Some?
        ensures KeyOf(container, log[i].record.value) in InsertAll(rows, container, log)
      {
        if i < |log| - 1 { assert log[..|log| - 1][i] == log[i]; }
      }
    }
  }

  // The first record of each key in a log.
  function FirstRows(container: string, log: Log): Table { InsertAll(map[], container, log) }

  // A row of the table is the first line of the log with its key.
  ghost predicate IsFirst(container: string, log: Log, key: Key, row: Row) {
    exists i :: 0 <= i < |log| && log[i].record.Some? && KeyOf(container, log[i].record.value) == key
      && row == Row(log[i].stamp, log[i].record.value)
      && forall j :: 0 <= j < i && log[j].record.Some? ==> KeyOf(container, log[j].record.value) != key
  }

  lemma {:induction false} FirstRowsAreFirst(container: string, log: Log, key: Key)
    ensures key in FirstRows(container, log) ==> IsFirst(container, log, key, FirstRows(container, log)[key])
    ensures key !in FirstRows(container, log) ==>
              forall i :: 0 <= i < |log| && log[i].record.Some? ==> KeyOf(container, log[i].record.value) != key
  {
    if log != [] {
      var front, last := log[..|log| - 1], log[|log| - 1];
      FirstRowsAreFirst(container, front, key);
      var before := FirstRows(container, front);
      if key in before {
        var i :| 0 <= i < |front| && front[i].record.Some? && KeyOf(container, front[i].record.value) == key
          && before[key] == Row(front[i].stamp, front[i].record.value)
          && forall j :: 0 <= j < i && front[j].record.Some? ==> KeyOf(container, front[j].record.value) != key;
        assert log[i] == front[i];
        forall j | 0 <= j < i && log[j].record.Some?
          ensures KeyOf(container, log[j].record.value) != key
        {
          assert front[j] == log[j];
        }
      } else {
        forall j | 0 <= j < |front| && log[j].record.Some?
          ensures KeyOf(container, log[j].record.value) != key
        {
          assert front[j] == log[j];
        }
        if key in FirstRows(container, log) {
          assert log[|log| - 1].record.Some? && KeyOf(container, last.record.value) == key;
        }
      }
    }
  }

  // ----- Reading since the cursor

  predicate Ordered(log: Log) {
    forall i, j :: 0 <= i < j < |log| ==> log[i].stamp <= log[j].stamp
  }

  // First line at or after the cursor; without one, the beginning.
  function SinceIndex(log: Log, cursor: Option<int>): (from: nat)
    ensures from <= |log|
    ensures cursor.Some? ==> forall i :: 0 <= i < from ==> log[i].stamp < cursor.value
    ensures cursor.Some? && from < |log| ==> log[from].stamp >= cursor.value
    ensures cursor.None? ==> from == 0
  {
    if cursor.None? || log == [] || log[0].stamp >= cursor.value then 0
    else
      var rest := SinceIndex(log[1..], cursor);
      assert forall i :: 0 < i <= rest ==> log[i] == log[1..][i - 1];
      1 + rest
  }

  // The cursor left by reading the first n lines.
  function CursorAt(log: Log, n: nat): Option<int>
    requires n <= |log|
  {
    if n == 0 then None else Some(log[n - 1].stamp)
  }

  // Reading from the cursor never starts past what was read, and always includes
  // the last line read.
  lemma {:induction false} CursorOverlaps(log: Log, n: nat, m: nat)
    requires n <= m <= |log| && Ordered(log)
    ensures SinceIndex(log[..m], CursorAt(log, n)) <= n
    ensures n > 0 ==> SinceIndex(log[..m], CursorAt(log, n)) < n
  {
    if n > 0 {
      assert log[..m][n - 1] == log[n - 1];
    }
  }

  // Reading an overlapping stretch of the log continues where reading stopped.
  lemma {:induction false} OverlapContinues(container: string, log: Log, from: nat, n: nat, m: nat)
    requires from <= n <= m <= |log|
    ensures InsertAll(FirstRows(container, log[..n]), container, log[from..m]) == FirstRows(container, log[..m])
  {
    hide Insert;
    var rows := FirstRows(container, log[..n]);
    assert log[from..m] == log[from..n] + log[n..m];
    InsertConcat(rows, container, log[from..n], log[n..m]);
    StoredAfter(map[], container, log[..n]);
    forall i | 0 <= i < |log[from..n]| && log[from..n][i].record.Some?
      ensures KeyOf(container, log[from..n][i].record.value) in rows
    {
      assert log[from..n][i] == log[..n][from + i];
    }
    RereadIsIgnored(rows, container, log[from..n]);
    assert log[..m] == log[..n] + log[n..m];
    InsertConcat(map[], container, log[..n], log[n..m]);
  }

  // ----- The archive

  // One container's view of the archive: its rows are the first occurrences in the
  // first n lines of its log, and its cursor is at the last of them.
  ghost predicate UpTo(rows: Table, cursors: map<string, int>, container: string, log: Log, n: nat) {
    && n <= |log|
    && Only(rows, container) == FirstRows(container, log[..n])
    && CursorAt(log, n) == (if container in cursors then Some(cursors[container]) else None)
  }

  ghost function Only(rows: Table, container: string): Table {
    map key | key in rows && key.container == container :: rows[key]
  }

  class Database {
    var rows: Table
    var cursors: map<string, int>

    constructor ()
      ensures rows == map[] && cursors == map[]
    {
      rows, cursors := map[], map[];
    }

    // One transaction: insert what is new, move the cursor if anything was read.
    method StoreCollection(container: string, lines: Log) returns (inserted: nat, duplicates: nat)
      modifies this
      ensures rows == InsertAll(old(rows), container, lines)
      ensures |rows| == |old(rows)| + inserted
      ensures inserted + duplicates == Records(lines)
      ensures cursors == if lines == [] then old(cursors) else old(cursors)[container := lines[|lines| - 1].stamp]
    {
      inserted, duplicates := 0, 0;
      for i := 0 to |lines|
        invariant rows == InsertAll(old(rows), container, lines[..i])
        invariant |rows| == |old(rows)| + inserted
        invariant inserted + duplicates == Records(lines[..i])
        invariant cursors == old(cursors)
      {
        assert lines[..i + 1][..i] == lines[..i];
        if lines[i].record.Some? {
          var r := lines[i].record.value;
          if KeyOf(container, r) in rows {
            duplicates := duplicates + 1;
          } else {
            rows := rows[KeyOf(container, r) := Row(lines[i].stamp, r)];
            inserted := inserted + 1;
          }
        }
      }
      assert lines[..|lines|] == lines;
      if lines != [] { cursors := cursors[container := lines[|lines| - 1].stamp]; }
    }

    // Collect whatever the log holds so far, from the stored cursor on.
    method Collect(container: string, log: Log, ghost n: nat, m: nat) returns (inserted: nat, duplicates: nat)
      requires Ordered(log) && n <= m <= |log| && UpTo(rows, cursors, container, log, n)
      modifies this
      ensures UpTo(rows, cursors, container, log, m)
      ensures forall other, otherLog, k :: other != container && old(UpTo(rows, cursors, other, otherLog, k)) ==>
                UpTo(rows, cursors, other, otherLog, k)
      ensures |rows| == |old(rows)| + inserted
      ensures inserted + duplicates == Records(log[SinceIndex(log[..m], CursorAt(log, n))..m])
    {
      var cursor := if container in cursors then Some(cursors[container]) else None;
      var visible := log[..m];
      var from := SinceIndex(visible, cursor);
      CursorOverlaps(log, n, m);
      var lines := visible[from..];
      assert lines == log[from..m];
      ghost var before := rows;
      inserted, duplicates := StoreCollection(container, lines);
      OnlyInserts(before, container, lines);
      OverlapContinues(container, log, from, n, m);
      if m > 0 { assert lines[|lines| - 1] == log[m - 1]; }
    }
  }

  function Records(log: Log): nat {
    if log == [] then 0 else Records(log[..|log| - 1]) + (if log[|log| - 1].record.Some? then 1 else 0)
  }

  // Inserting for one container acts on that container's rows alone.
  lemma {:induction false} OnlyInserts(rows: Table, container: string, log: Log)
    ensures Only(InsertAll(rows, container, log), container) == InsertAll(Only(rows, container), container, log)
    ensures forall other :: other != container ==> Only(InsertAll(rows, container, log), other) == Only(rows, other)
  {
    if log != [] { OnlyInserts(rows, container, log[..|log| - 1]); }
  }

  // ----- Any schedule of collections

  // Read container `container` when its log holds m lines.
  datatype Visit = Visit(container: string, m: nat)

  // Visits name known logs and each log only grows.
  ghost predicate Grows(logs: map<string, Log>, visits: seq<Visit>) {
    && (forall i :: 0 <= i < |visits| ==>
          visits[i].container in logs && visits[i].m <= |logs[visits[i].container]|)
    && (forall i, j :: 0 <= i < j < |visits| && visits[i].container == visits[j].container ==> visits[i].m <= visits[j].m)
  }

  // Lines of a container's log seen by the first k visits.
  ghost function SeenBy(visits: seq<Visit>, k: nat, container: string): nat
    requires k <= |visits|
  {
    if k == 0 then 0
    else if visits[k - 1].container == container then visits[k - 1].m
    else SeenBy(visits, k - 1, container)
  }

  lemma {:induction false} SeenGrows(logs: map<string, Log>, visits: seq<Visit>, k: nat)
    requires Grows(logs, visits) && k < |visits|
    ensures SeenBy(visits, k, visits[k].container) <= visits[k].m
  {
    var j := LastVisit(visits, k, visits[k].container);
  }

  lemma {:induction false} LastVisit(visits: seq<Visit>, k: nat, container: string) returns (j: int)
    requires k <= |visits|
    ensures -1 <= j < k
    ensures if j >= 0 then visits[j].container == container && SeenBy(visits, k, container) == visits[j].m
            else SeenBy(visits, k, container) == 0
  {
    if k == 0 {
      j := -1;
    } else if visits[k - 1].container == container {
      j := k - 1;
    } else {
      j := LastVisit(visits, k - 1, container);
    }
  }

  lemma {:induction false} NothingSeen(logs: map<string, Log>)
    ensures forall container :: container in logs ==> UpTo(map[], map[], container, logs[container], 0)
  {
    forall container | container in logs
      ensures UpTo(map[], map[], container, logs[container], 0)
    {
      assert logs[container][..0] == [];
      assert Only(map[], container) == map[];
    }
  }

  // Whatever the schedule, every container's rows are the first occurrences in
  // what was seen of its log, and the inserted counts add up to the rows.
  method CollectAll(logs: map<string, Log>, visits: seq<Visit>) returns (db: Database, total: nat)
    requires forall container :: container in logs ==> Ordered(logs[container])
    requires Grows(logs, visits)
    ensures forall container :: container in logs ==>
              UpTo(db.rows, db.cursors, container, logs[container], SeenBy(visits, |visits|, container))
    ensures total == |db.rows|
  {
    hide UpTo;
    db := new Database();
    total := 0;
    NothingSeen(logs);
    for k := 0 to |visits|
      invariant fresh(db)
      invariant forall container :: container in logs ==>
                  UpTo(db.rows, db.cursors, container, logs[container], SeenBy(visits, k, container))
      invariant total == |db.rows|
    {
      var v := visits[k];
      SeenGrows(logs, visits, k);
      var inserted, duplicates := db.Collect(v.container, logs[v.container], SeenBy(visits, k, v.container), v.m);
      total := total + inserted;
    }
  }

  // ----- Day exports

  const DAY_MS := 86_400_000

  function DayOf(r: Record): nat { r.unixMs / DAY_MS }

  predicate StartsOn(rows: Table, container: string, seqNo: nat, day: nat) {
    Key(container, seqNo, Start) in rows &&
    day * DAY_MS <= rows[Key(container, seqNo, Start)].record.unixMs < (day + 1) * DAY_MS
  }

  function Pair(rows: Table, container: string, seqNo: nat): seq<Record>
    requires Key(container, seqNo, Start) in rows
  {
    [rows[Key(container, seqNo, Start)].record] +
    (if Key(container, seqNo, Finish) in rows then [rows[Key(container, seqNo, Finish)].record] else [])
  }

  // Requests of a day in sequence order, each start followed by its finish.
  function Export(rows: Table, container: string, order: seq<nat>): seq<Record>
    requires forall i :: 0 <= i < |order| ==> Key(container, order[i], Start) in rows
  {
    if order == [] then []
    else Export(rows, container, order[..|order| - 1]) + Pair(rows, container, order[|order| - 1])
  }

  predicate Increasing(order: seq<nat>) {
    forall i, j :: 0 <= i < j < |order| ==> order[i] < order[j]
  }

  method SortNumbers(numbers: set<nat>) returns (order: seq<nat>)
    ensures Increasing(order) && forall x :: x in order <==> x in numbers
  {
    order := [];
    var rest := numbers;
    while rest != {}
      invariant rest <= numbers && Increasing(order)
      invariant forall x :: x in order <==> x in numbers && x !in rest
      invariant forall x, y :: x in order && y in rest ==> x < y
      decreases rest
    {
      var least :| least in rest;
      var others := rest - {least};
      while others != {}
        invariant others <= rest && least in rest
        invariant forall y :: y in rest && y !in others ==> least <= y
        decreases others
      {
        var y :| y in others;
        others := others - {y};
        if y < least { least := y; }
      }
      forall i | 0 <= i < |order|
        ensures order[i] < least
      {
        assert order[i] in order && least in rest;
      }
      order := order + [least];
      rest := rest - {least};
    }
  }

  method RecordsForDay(rows: Table, container: string, day: nat) returns (records: seq<Record>, order: seq<nat>)
    ensures Increasing(order)
    ensures forall seqNo :: seqNo in order <==> StartsOn(rows, container, seqNo, day)
    ensures forall i :: 0 <= i < |order| ==> Key(container, order[i], Start) in rows
    ensures records == Export(rows, container, order)
  {
    var numbers := set key | key in rows && key.container == container && key.kind == Start
                             && StartsOn(rows, container, key.seqNo, day) :: key.seqNo;
    order := SortNumbers(numbers);
    forall seqNo
      ensures seqNo in order <==> StartsOn(rows, container, seqNo, day)
    {
      if StartsOn(rows, container, seqNo, day) { assert Key(container, seqNo, Start).seqNo == seqNo; }
    }
    forall i | 0 <= i < |order|
      ensures Key(container, order[i], Start) in rows
    {
      assert order[i] in order;
    }
    records := [];
    for i := 0 to |order|
      invariant records == Export(rows, container, order[..i])
    {
      assert order[..i + 1][..i] == order[..i];
      records := records + Pair(rows, container, order[i]);
    }
    assert order[..|order|] == order;
  }

  // Every start belongs to exactly one day.
  lemma {:induction false} OneDay(rows: Table, container: string, seqNo: nat, day: nat)
    requires Key(container, seqNo, Start) in rows
    ensures StartsOn(rows, container, seqNo, day) <==> day == DayOf(rows[Key(container, seqNo, Start)].record)
  {
    var ms := rows[Key(container, seqNo, Start)].record.unixMs;
    assert ms == (ms / DAY_MS) * DAY_MS + ms % DAY_MS;
  }

  // Rows are stored under their own key.
  ghost predicate Keyed(rows: Table) {
    forall key :: key in rows ==> rows[key].record.seqNo == key.seqNo && rows[key].record.kind == key.kind
  }

  lemma {:induction false} InsertKeepsKeyed(rows: Table, container: string, log: Log)
    requires Keyed(rows)
    ensures Keyed(InsertAll(rows, container, log))
  {
    if log != [] { InsertKeepsKeyed(rows, container, log[..|log| - 1]); }
  }

  function CountOf(records: seq<Record>, seqNo: nat, kind: Kind): nat {
    if records == [] then 0
    else
      var r := records[|records| - 1];
      CountOf(records[..|records| - 1], seqNo, kind) + (if r.seqNo == seqNo && r.kind == kind then 1 else 0)
  }

  lemma {:induction false} CountConcat(a: seq<Record>, b: seq<Record>, seqNo: nat, kind: Kind)
    ensures CountOf(a + b, seqNo, kind) == CountOf(a, seqNo, kind) + CountOf(b, seqNo, kind)
  {
    if b == [] {
      assert a + b == a;
    } else {
      assert (a + b)[..|a + b| - 1] == a + b[..|b| - 1];
      CountConcat(a, b[..|b| - 1], seqNo, kind);
    }
  }

  // A day's export holds each of its requests' starts once and each stored finish
  // once, and nothing of other requests.
  lemma {:induction false} ExportOnce(rows: Table, container: string, order: seq<nat>, seqNo: nat, kind: Kind)
    requires Keyed(rows) && Increasing(order)
    requires forall i :: 0 <= i < |order| ==> Key(container, order[i], Start) in rows
    ensures CountOf(Export(rows, container, order), seqNo, kind)
         == if seqNo in order && Key(container, seqNo, kind) in rows then 1 else 0
  {
    if order != [] {
      var front, last := order[..|order| - 1], order[|order| - 1];
      assert order == front + [last];
      ExportOnce(rows, container, front, seqNo, kind);
      CountConcat(Export(rows, container, front), Pair(rows, container, last), seqNo, kind);
      PairCount(rows, container, last, seqNo, kind);
    }
  }

  // A finish stands right after its start.
  lemma {:induction false} FinishFollowsStart(rows: Table, container: string, order: seq<nat>, i: nat)
    requires Keyed(rows) && forall k :: 0 <= k < |order| ==> Key(container, order[k], Start) in rows
    requires i < |Export(rows, container, order)| && Export(rows, container, order)[i].kind == Finish
    ensures var records := Export(rows, container, order);
            i > 0 && records[i - 1].kind == Start && records[i - 1].seqNo == records[i].seqNo
  {
    var front := order[..|order| - 1];
    var before := Export(rows, container, front);
    if i < |before| { FinishFollowsStart(rows, container, front, i); }
  }

  lemma {:induction false} PairCount(rows: Table, container: string, last: nat, seqNo: nat, kind: Kind)
    requires Keyed(rows) && Key(container, last, Start) in rows
    ensures CountOf(Pair(rows, container, last), seqNo, kind)
         == if seqNo == last && Key(container, seqNo, kind) in rows then 1 else 0
  {
    var start := rows[Key(container, last, Start)].record;
    assert CountOf([], seqNo, kind) == 0;
    assert [start][..0] == [];
    if Key(container, last, Finish) in rows {
      var finish := rows[Key(container, last, Finish)].record;
      assert Pair(rows, container, last) == [start, finish];
      assert [start, finish][..1] == [start];
    } else {
      assert Pair(rows, container, last) == [start];
    }
  }
}
