/**
 The candidate gate's append-only journal (bench/candidate_gate.py): runs that may
 be resumed and may stop at any byte of an append, over one file.
 */
module CandidateGate {
  import opened Common

  type Digest = nat

  // The identity check and the stages, in order.
  datatype Gate = Identity | Agent | Scout | Matrix

  const STAGES := [Agent, Scout, Matrix]

  datatype Status = Passed | Failed | Resumed

  datatype Record = Record(candidate: Digest, plan: Digest, gate: Gate, status: Status)

  // A journal line: a whole record, a whole record that lacks its newline (only the
  // last line can), or text that is not one record.
  datatype Line = Entry(record: Record) | Unended(record: Record) | Torn {
    predicate Readable() { !Torn? }
    predicate Says(gate: Gate, status: Status) { Readable() && record.gate == gate && record.status == status }
  }

  type Lines = seq<Line>

  // Where an append is cut: before the file is opened, before its first byte, between
  // its first and its last byte before the newline, or just before the newline.
  datatype Cut = Unopened | Empty | Inside | BeforeNewline

  // One invocation: what it was asked to do, how its checks turn out, how many
  // appends it completes, and where the next one is cut.
  datatype Run = Run(
    candidate: Digest,
    plan: Digest,
    resume: bool,
    through: nat,
    identityOk: bool,
    stageOk: seq<bool>,
    appends: nat,
    cut: Cut)
  {
    // --through names one, two or all three stages.
    predicate Valid() { through <= |STAGES| == |stageOk| }
    function Rec(gate: Gate, status: Status): Record { Record(candidate, plan, gate, status) }
  }

  // ----- Specification

  predicate Has(lines: Lines, gate: Gate, status: Status) {
    exists i :: 0 <= i < |lines| && lines[i].Says(gate, status)
  }

  // Every record belongs to this candidate and plan.
  predicate Belongs(lines: Lines, candidate: Digest, plan: Digest) {
    forall i :: 0 <= i < |lines| && lines[i].Readable() ==>
      lines[i].record.candidate == candidate && lines[i].record.plan == plan
  }

  predicate Intact(lines: Lines) { forall i :: 0 <= i < |lines| ==> lines[i].Readable() }

  // A journal that may be resumed.
  predicate Admits(lines: Lines, candidate: Digest, plan: Digest) { Intact(lines) && Belongs(lines, candidate, plan) }

  predicate Succeeded(lines: Lines, gate: Gate) { Has(lines, gate, Passed) || Has(lines, gate, Resumed) }

  function Successful(lines: Lines): set<Gate> {
    set gate | gate in {Identity, Agent, Scout, Matrix} && Succeeded(lines, gate)
  }

  // What the stages from k on append.
  function StageRecords(run: Run, done: set<Gate>, k: nat): seq<Record>
    requires run.Valid() && k <= run.through
    decreases run.through - k
  {
    if k == run.through then []
    else if STAGES[k] in done then [run.Rec(STAGES[k], Resumed)] + StageRecords(run, done, k + 1)
    else if run.stageOk[k] then [run.Rec(STAGES[k], Passed)] + StageRecords(run, done, k + 1)
    else [run.Rec(STAGES[k], Failed)]
  }

  function RunRecords(run: Run, done: set<Gate>): seq<Record>
    requires run.Valid()
  {
    if run.identityOk then [run.Rec(Identity, Passed)] + StageRecords(run, done, 0)
    else [run.Rec(Identity, Failed)]
  }

  function Entries(records: seq<Record>): (lines: Lines)
    ensures |lines| == |records| && forall i :: 0 <= i < |lines| ==> lines[i] == Entry(records[i])
  {
    seq(|records|, i requires 0 <= i < |records| => Entry(records[i]))
  }

  predicate EndsOpen(lines: Lines) { lines != [] && lines[|lines| - 1].Unended? }

  // New bytes at the end of the file run on from a line without newline.
  function Put(lines: Lines, line: Line): Lines {
    if EndsOpen(lines) then lines[..|lines| - 1] + [Torn] else lines + [line]
  }

  // Whole appends: only the first can run into an unended line.
  function PutAll(lines: Lines, records: seq<Record>): Lines {
    if records == [] then lines else Put(lines, Entry(records[0])) + Entries(records[1..])
  }

  // The run is let in: a new journal, or one it may and does resume.
  predicate Starts(journal: Option<Lines>, run: Run) {
    journal.None? || (run.resume && Admits(journal.value, run.candidate, run.plan))
  }

  function LinesOf(journal: Option<Lines>): Lines { if journal.Some? then journal.value else [] }

  // The file after an append of this record was cut.
  function AfterCut(journal: Option<Lines>, record: Record, cut: Cut): Option<Lines> {
    match cut
    case Unopened => journal
    case Empty => Some(LinesOf(journal))
    case Inside => Some(Put(LinesOf(journal), Torn))
    case BeforeNewline => Some(Put(LinesOf(journal), Unended(record)))
  }

  // The journal after a run.
  function After(journal: Option<Lines>, run: Run): Option<Lines>
    requires run.Valid()
  {
    if !Starts(journal, run) then journal
    else
      var records := RunRecords(run, Successful(LinesOf(journal)));
      if run.appends >= |records| then Some(PutAll(LinesOf(journal), records))
      else
        AfterCut(if run.appends == 0 then journal else Some(PutAll(LinesOf(journal), records[..run.appends])),
                 records[run.appends], run.cut)
  }

  // ----- What a sound journal satisfies

  function StageIndex(gate: Gate): int {
    match gate case Identity => -1 case Agent => 0 case Scout => 1 case Matrix => 2
  }

  ghost predicate Fits(lines: Lines, r: Record) {
    && (r.status == Resumed ==> r.gate != Identity && Has(lines, r.gate, Passed))
    && (r.gate != Identity && r.status == Passed ==>
          && !Has(lines, r.gate, Passed)
          && forall k :: 0 <= k < StageIndex(r.gate) ==> Has(lines, STAGES[k], Passed))
  }

  // Resumed stages were passed before, passed stages follow all earlier ones and
  // pass once, and all records belong to one candidate and plan.
  ghost predicate Sound(lines: Lines) {
    && (forall i :: 0 <= i < |lines| && lines[i].Readable() ==> Fits(lines[..i], lines[i].record))
    && (forall i, j :: 0 <= i < |lines| && 0 <= j < |lines| && lines[i].Readable() && lines[j].Readable() ==>
          lines[i].record.candidate == lines[j].record.candidate && lines[i].record.plan == lines[j].record.plan)
  }

  lemma {:induction false} HasAppend(lines: Lines, line: Line, gate: Gate, status: Status)
    ensures Has(lines + [line], gate, status) <==> Has(lines, gate, status) || line.Says(gate, status)
  {
    var more := lines + [line];
    assert more[|lines|] == line;
    assert forall i :: 0 <= i < |lines| ==> more[i] == lines[i];
  }

  // One more line is sound exactly if it is not a record or fits what stands before it.
  lemma {:induction false} SoundAppend(lines: Lines, line: Line, candidate: Digest, plan: Digest)
    requires Sound(lines) && Belongs(lines + [line], candidate, plan)
    ensures Sound(lines + [line]) <==> line.Torn? || Fits(lines, line.record)
  {
    hide Fits;
    var more := lines + [line];
    assert more[..|lines|] == lines && more[|lines|] == line;
    forall i | 0 <= i < |lines| && more[i].Readable()
      ensures Fits(more[..i], more[i].record)
    {
      assert more[..i] == lines[..i] && more[i] == lines[i];
    }
  }

  lemma {:induction false} BelongsAppend(lines: Lines, line: Line, candidate: Digest, plan: Digest)
    requires Belongs(lines, candidate, plan)
    requires line.Torn? || (line.record.candidate == candidate && line.record.plan == plan)
    ensures Belongs(lines + [line], candidate, plan)
  {}

  // Only whether a stage has a pass matters to later records.
  lemma {:induction false} SoundPrefixes(lines: Lines, n: nat)
    requires Sound(lines) && n <= |lines|
    ensures Sound(lines[..n])
  {
    hide Fits;
    forall i | 0 <= i < n && lines[..n][i].Readable()
      ensures Fits(lines[..n][..i], lines[..n][i].record)
    {
      assert lines[..n][..i] == lines[..i];
    }
  }

  // ----- The stages of a run

  // Where stage k of a run stands: the stages before it have passed, and what
  // was done before the run is what the journal shows.
  ghost predicate Ready(lines: Lines, run: Run, done: set<Gate>, k: nat)
    requires k <= |STAGES|
  {
    && Sound(lines) && Belongs(lines, run.candidate, run.plan)
    && (forall i :: 0 <= i < k ==> Has(lines, STAGES[i], Passed))
    && (forall i :: k <= i < |STAGES| ==> (STAGES[i] in done <==> Has(lines, STAGES[i], Passed)))
  }

  // However many of its stage records a ready run appends, the journal stays sound.
  lemma {:induction false} StagesKeepSound(lines: Lines, run: Run, done: set<Gate>, k: nat, n: nat)
    requires run.Valid() && k <= run.through && Ready(lines, run, done, k)
    requires n <= |StageRecords(run, done, k)|
    ensures Sound(lines + Entries(StageRecords(run, done, k)[..n]))
    decreases run.through - k
  {
    if n == 0 {
      assert lines + Entries(StageRecords(run, done, k)[..n]) == lines;
    } else {
      hide Ready, Sound, StageRecords;
      if k == run.through { NoMoreStages(run, done); }
      StageUnfold(run, done, k);
      StageStep(lines, run, done, k);
      var first := StageRecords(run, done, k)[0];
      if first.status != Failed { StagesKeepSound(lines + [Entry(first)], run, done, k + 1, n - 1); }
      StageAndRest(lines, run, done, k, n);
    }
  }

  lemma {:induction false} StageAndRest(lines: Lines, run: Run, done: set<Gate>, k: nat, n: nat)
    requires run.Valid() && k < run.through && 0 < n <= |StageRecords(run, done, k)|
    ensures var records := StageRecords(run, done, k);
            var more := lines + [Entry(records[0])];
            lines + Entries(records[..n]) ==
              if records[0].status == Failed then more else more + Entries(StageRecords(run, done, k + 1)[..n - 1])
  {
    hide StageRecords;
    StageUnfold(run, done, k);
    var first := StageRecords(run, done, k)[0];
    if first.status == Failed {
      EntriesCons(lines, first, [], n);
    } else {
      EntriesCons(lines, first, StageRecords(run, done, k + 1), n);
    }
  }

  lemma {:induction false} EntriesCons(lines: Lines, first: Record, rest: seq<Record>, n: nat)
    requires 0 < n <= |rest| + 1
    ensures lines + Entries(([first] + rest)[..n]) == (lines + [Entry(first)]) + Entries(rest[..n - 1])
    ensures (lines + [Entry(first)]) + Entries([]) == lines + [Entry(first)]
  {
    assert ([first] + rest)[..n] == [first] + rest[..n - 1];
  }

  lemma {:induction false} StageUnfold(run: Run, done: set<Gate>, k: nat)
    requires run.Valid() && k < run.through
    ensures var status := if STAGES[k] in done then Resumed else if run.stageOk[k] then Passed else Failed;
            StageRecords(run, done, k) == [run.Rec(STAGES[k], status)] +
                                          (if status == Failed then [] else StageRecords(run, done, k + 1))
  {}

  lemma {:induction false} StageStep(lines: Lines, run: Run, done: set<Gate>, k: nat)
    requires run.Valid() && k < run.through && Ready(lines, run, done, k)
    ensures var first := StageRecords(run, done, k)[0];
            var more := lines + [Entry(first)];
            Sound(more) && (first.status != Failed ==> Ready(more, run, done, k + 1))
  {
    var first := StageRecords(run, done, k)[0];
    var more := lines + [Entry(first)];
    assert StageIndex(STAGES[k]) == k && STAGES[k] != Identity;
    BelongsAppend(lines, Entry(first), run.candidate, run.plan);
    SoundAppend(lines, Entry(first), run.candidate, run.plan);
    if first.status != Failed {
      forall i | 0 <= i < |STAGES|
        ensures Has(more, STAGES[i], Passed) <==> Has(lines, STAGES[i], Passed) || (i == k && first.status == Passed)
      {
        HasAppend(lines, Entry(first), STAGES[i], Passed);
        assert i != k ==> STAGES[i] != STAGES[k];
      }
    }
  }

  lemma {:induction false} SuccessfulStages(lines: Lines)
    requires Sound(lines)
    ensures forall i :: 0 <= i < |STAGES| ==> (STAGES[i] in Successful(lines) <==> Has(lines, STAGES[i], Passed))
  {
    forall i | 0 <= i < |STAGES| && Has(lines, STAGES[i], Resumed)
      ensures Has(lines, STAGES[i], Passed)
    {
      var j :| 0 <= j < |lines| && lines[j].Says(STAGES[i], Resumed);
      assert Fits(lines[..j], lines[j].record);
      var m :| 0 <= m < j && lines[..j][m].Says(STAGES[i], Passed);
      assert lines[m] == lines[..j][m];
    }
  }

  lemma {:induction false} NoMoreStages(run: Run, done: set<Gate>)
    requires run.Valid()
    ensures StageRecords(run, done, run.through) == []
  {}

  // ----- One run

  // Records a run leaves whole, with or without their newline.
  function Left(run: Run, records: seq<Record>): nat {
    if run.appends >= |records| then |records|
    else run.appends + (if run.cut == BeforeNewline then 1 else 0)
  }

  // A trailing newline does not change what a journal says.
  lemma {:induction false} NewlineIsSilent(lines: Lines, record: Record)
    ensures Sound(lines + [Unended(record)]) <==> Sound(lines + [Entry(record)])
    ensures forall gate, status :: Has(lines + [Unended(record)], gate, status) <==> Has(lines + [Entry(record)], gate, status)
  {
    var a, b := lines + [Unended(record)], lines + [Entry(record)];
    assert a[..|lines|] == b[..|lines|] == lines && a[|lines|] == Unended(record) && b[|lines|] == Entry(record);
    assert forall i :: 0 <= i < |lines| ==> a[i] == b[i] && a[..i] == b[..i];
    assert forall i :: 0 <= i < |a| ==> a[i].Readable() == b[i].Readable() && a[..i] == b[..i];
  }

  // What every journal a run starts from has in common: it is sound, whole and the
  // run's own, and it shows a pass for exactly the stages the run takes as done.
  ghost predicate Base(lines: Lines, run: Run) {
    && run.Valid() && Sound(lines) && Admits(lines, run.candidate, run.plan)
    && forall i :: 0 <= i < |STAGES| ==> (STAGES[i] in Successful(lines) <==> Has(lines, STAGES[i], Passed))
  }

  // An unended last line lost, the rest and the torn line stay sound.
  lemma {:induction false} WithoutLast(lines: Lines, run: Run)
    requires Base(lines, run) && EndsOpen(lines)
    ensures var spoiled := lines[..|lines| - 1] + [Torn];
            var last := lines[|lines| - 1].record;
            && Sound(spoiled) && Belongs(spoiled, run.candidate, run.plan)
            && Fits(lines[..|lines| - 1], last)
            && (forall gate :: Has(lines, gate, Passed) <==> Has(spoiled, gate, Passed) || (last.gate == gate && last.status == Passed))
            && (forall gate :: Has(spoiled, gate, Passed) <==> Has(lines[..|lines| - 1], gate, Passed))
  {
    hide Fits, Has;
    var front, last := lines[..|lines| - 1], lines[|lines| - 1];
    assert lines == front + [last];
    SoundPrefixes(lines, |lines| - 1);
    BelongsAppend(front, Torn, run.candidate, run.plan);
    SoundAppend(front, Torn, run.candidate, run.plan);
    forall gate
      ensures Has(lines, gate, Passed) <==> Has(front, gate, Passed) || (last.record.gate == gate && last.record.status == Passed)
      ensures Has(front + [Torn], gate, Passed) <==> Has(front, gate, Passed)
    {
      HasAppend(front, last, gate, Passed);
      HasAppend(front, Torn, gate, Passed);
    }
  }

  // Stages done before are recorded as resumed.
  lemma {:induction false} ResumedStages(run: Run, done: set<Gate>, k: nat, j: nat)
    requires run.Valid() && k <= j <= run.through && forall i :: k <= i < j ==> STAGES[i] in done
    ensures |StageRecords(run, done, k)| >= j - k
    ensures forall i :: k <= i < j ==> StageRecords(run, done, k)[i - k] == run.Rec(STAGES[i], Resumed)
    decreases j - k
  {
    if k < j { ResumedStages(run, done, k + 1, j); }
  }

  lemma {:induction false} HasMore(lines: Lines, more: Lines, gate: Gate, status: Status)
    ensures Has(lines + more, gate, status) <==> Has(lines, gate, status) || Has(more, gate, status)
  {
    var all := lines + more;
    assert forall i :: 0 <= i < |lines| ==> all[i] == lines[i];
    assert forall i :: 0 <= i < |more| ==> all[|lines| + i] == more[i];
    if Has(more, gate, status) {
      var i :| 0 <= i < |more| && more[i].Says(gate, status);
      assert all[|lines| + i].Says(gate, status);
    }
    if Has(all, gate, status) {
      var i :| 0 <= i < |all| && all[i].Says(gate, status);
      if i < |lines| { assert lines[i].Says(gate, status); } else { assert more[i - |lines|].Says(gate, status); }
    }
  }

  // Records of resumed stages that the journal shows as passed keep it sound.
  lemma {:induction false} ResumedKeepSound(lines: Lines, run: Run, stages: seq<Record>, m: nat)
    requires Sound(lines) && Belongs(lines, run.candidate, run.plan) && m <= |stages| && m <= |STAGES|
    requires forall i :: 0 <= i < m ==> stages[i] == run.Rec(STAGES[i], Resumed) && Has(lines, STAGES[i], Passed)
    ensures Sound(lines + Entries(stages[..m])) && Belongs(lines + Entries(stages[..m]), run.candidate, run.plan)
  {
    hide Has;
    if m == 0 {
      assert lines + Entries(stages[..m]) == lines;
    } else {
      ResumedKeepSound(lines, run, stages, m - 1);
      var before, line := lines + Entries(stages[..m - 1]), Entry(stages[m - 1]);
      assert lines + Entries(stages[..m]) == before + [line];
      HasMore(lines, Entries(stages[..m - 1]), STAGES[m - 1], Passed);
      assert STAGES[m - 1] != Identity;
      BelongsAppend(before, line, run.candidate, run.plan);
      SoundAppend(before, line, run.candidate, run.plan);
    }
  }

  // The pass of a stage is gone and the stage recorded as resumed.
  lemma {:induction false} ResumedWithoutPass(lines: Lines, run: Run, stages: seq<Record>, j: nat, n: nat)
    requires j < n <= |stages| && j < |STAGES| && !Has(lines, STAGES[j], Passed)
    requires forall i :: 0 <= i <= j ==> stages[i] == run.Rec(STAGES[i], Resumed)
    ensures !Sound(lines + Entries(stages[..n]))
  {
    var all := lines + Entries(stages[..n]);
    var at := |lines| + j;
    assert all[at] == Entry(stages[j]) && all[at].Readable();
    assert all[..at] == lines + Entries(stages[..j]);
    HasMore(lines, Entries(stages[..j]), STAGES[j], Passed);
    assert !Has(Entries(stages[..j]), STAGES[j], Passed);
    assert !Fits(all[..at], all[at].record);
  }

  // Whole appends onto a journal without an unended line.
  lemma {:induction false} AppendsKeepSound(lines: Lines, run: Run, n: nat)
    requires Base(lines, run) && !EndsOpen(lines) && n <= |RunRecords(run, Successful(lines))|
    ensures Sound(PutAll(lines, RunRecords(run, Successful(lines))[..n]))
  {
    hide Has, Sound, Successful;
    var done := Successful(lines);
    var records := RunRecords(run, done);
    if n > 0 {
      var first, more := records[0], lines + [Entry(records[0])];
      IdentityFits(lines, run, Entry(first));
      AfterFirst(lines, records, n);
      if run.identityOk {
        StagesKeepSound(more, run, done, 0, n - 1);
        assert records[1..n] == StageRecords(run, done, 0)[..n - 1];
      } else {
        assert more + Entries(records[1..n]) == more;
      }
    }
  }

  // An identity record always fits and passes no stage.
  lemma {:induction false} IdentityFits(lines: Lines, run: Run, line: Line)
    requires Base(lines, run) && line.Readable() && line.record.gate == Identity && line.record.status != Resumed
    requires line.record.candidate == run.candidate && line.record.plan == run.plan
    ensures Sound(lines + [line]) && Ready(lines + [line], run, Successful(lines), 0)
  {
    hide Has, Successful;
    BelongsAppend(lines, line, run.candidate, run.plan);
    SoundAppend(lines, line, run.candidate, run.plan);
    forall i | 0 <= i < |STAGES|
      ensures Has(lines + [line], STAGES[i], Passed) <==> Has(lines, STAGES[i], Passed)
    {
      HasAppend(lines, line, STAGES[i], Passed);
    }
  }

  lemma {:induction false} AfterFirst(lines: Lines, records: seq<Record>, n: nat)
    requires 0 < n <= |records|
    ensures PutAll(lines, records[..n]) == Put(lines, Entry(records[0])) + Entries(records[1..n])
  {
    assert records[..n][0] == records[0] && records[..n][1..] == records[1..n];
  }

  // The unended last line is the pass of a stage.
  predicate OpenPass(lines: Lines) {
    EndsOpen(lines) && lines[|lines| - 1].record.gate != Identity && lines[|lines| - 1].record.status == Passed
  }

  // n whole appends reach the stage whose pass they spoil.
  predicate Reaches(lines: Lines, run: Run, n: nat) {
    OpenPass(lines) && run.identityOk && n >= StageIndex(lines[|lines| - 1].record.gate) + 2
  }

  // Whole appends onto an unended line: sound unless they reach the stage whose pass
  // they spoil.
  lemma {:induction false} SpoilingAppends(lines: Lines, run: Run, n: nat)
    requires Base(lines, run) && EndsOpen(lines) && 0 < n <= |RunRecords(run, Successful(lines))|
    ensures Sound(PutAll(lines, RunRecords(run, Successful(lines))[..n])) <==> !Reaches(lines, run, n)
  {
    hide Has, Sound, Successful;
    var done := Successful(lines);
    var records, spoiled := RunRecords(run, done), lines[..|lines| - 1] + [Torn];
    var last := lines[|lines| - 1].record;
    AfterFirst(lines, records, n);
    WithoutLast(lines, run);
    if !run.identityOk {
      assert spoiled + Entries(records[1..n]) == spoiled;
    } else {
      var stages := StageRecords(run, done, 0);
      assert records[1..n] == stages[..n - 1];
      if OpenPass(lines) {
        SpoiledPass(lines, run, spoiled, n - 1);
      } else {
        assert forall i :: 0 <= i < |STAGES| ==> STAGES[i] != Identity;
        StagesKeepSound(spoiled, run, done, 0, n - 1);
      }
    }
  }

  // The stages up to an unended pass are done, and only its own pass is spoiled.
  lemma {:induction false} EarlierPasses(lines: Lines, run: Run, spoiled: Lines)
    requires Base(lines, run) && OpenPass(lines) && spoiled == lines[..|lines| - 1] + [Torn]
    ensures var j := StageIndex(lines[|lines| - 1].record.gate);
            && 0 <= j < |STAGES|
            && Sound(spoiled) && Belongs(spoiled, run.candidate, run.plan) && !Has(spoiled, STAGES[j], Passed)
            && (forall i :: 0 <= i < j ==> Has(spoiled, STAGES[i], Passed))
            && (forall i :: 0 <= i <= j ==> STAGES[i] in Successful(lines))
  {
    hide Has, Sound, Successful;
    WithoutLast(lines, run);
  }

  lemma {:induction false} SpoiledPass(lines: Lines, run: Run, spoiled: Lines, m: nat)
    requires Base(lines, run) && OpenPass(lines) && spoiled == lines[..|lines| - 1] + [Torn]
    requires m <= |StageRecords(run, Successful(lines), 0)|
    ensures Sound(spoiled + Entries(StageRecords(run, Successful(lines), 0)[..m])) <==>
            m <= StageIndex(lines[|lines| - 1].record.gate)
  {
    hide Has, Sound, Successful, StageRecords, StageIndex, Belongs;
    var done := Successful(lines);
    var stages, j := StageRecords(run, done, 0), StageIndex(lines[|lines| - 1].record.gate);
    EarlierPasses(lines, run, spoiled);
    StagesWithin(run, done);
    if m <= j {
      ResumedStages(run, done, 0, m);
      ResumedKeepSound(spoiled, run, stages, m);
    } else {
      ResumedStages(run, done, 0, j + 1);
      ResumedWithoutPass(spoiled, run, stages, j, m);
    }
  }

  lemma {:induction false} StagesWithin(run: Run, done: set<Gate>)
    requires run.Valid()
    ensures |StageRecords(run, done, 0)| <= run.through
  {
    StagesFrom(run, done, 0);
  }

  lemma {:induction false} StagesFrom(run: Run, done: set<Gate>, k: nat)
    requires run.Valid() && k <= run.through
    ensures |StageRecords(run, done, k)| <= run.through - k
    decreases run.through - k
  {
    if k < run.through { StagesFrom(run, done, k + 1); }
  }

  // A record without its newline counts like one with it.
  lemma {:induction false} OpenAppend(lines: Lines, records: seq<Record>, n: nat)
    requires 0 < n <= |records|
    ensures Sound(Put(PutAll(lines, records[..n - 1]), Unended(records[n - 1]))) <==> Sound(PutAll(lines, records[..n]))
  {
    hide Sound;
    var before, record := PutAll(lines, records[..n - 1]), records[n - 1];
    if n == 1 {
      assert records[..1][1..] == [] && records[..1][0] == record;
      assert PutAll(lines, records[..1]) == Put(lines, Entry(record));
      if !EndsOpen(lines) { NewlineIsSilent(lines, record); }
    } else {
      AfterFirst(lines, records, n - 1);
      AfterFirst(lines, records, n);
      NotOpenAfter(lines, records, n - 1);
      assert PutAll(lines, records[..n]) == before + [Entry(record)];
      NewlineIsSilent(before, record);
    }
  }

  lemma {:induction false} NotOpenAfter(lines: Lines, records: seq<Record>, n: nat)
    requires 0 < n <= |records|
    ensures !EndsOpen(PutAll(lines, records[..n]))
  {
    AfterFirst(lines, records, n);
    if n > 1 {
      var rest := Entries(records[1..n]);
      assert rest[|rest| - 1].Entry?;
    }
  }

  lemma {:induction false} TornAppend(lines: Lines, run: Run)
    requires Belongs(lines, run.candidate, run.plan)
    ensures Sound(lines + [Torn]) <==> Sound(lines)
  {
    BelongsAppend(lines, Torn, run.candidate, run.plan);
    if Sound(lines) { SoundAppend(lines, Torn, run.candidate, run.plan); }
    if Sound(lines + [Torn]) {
      SoundPrefixes(lines + [Torn], |lines|);
      assert (lines + [Torn])[..|lines|] == lines;
    }
  }

  // n whole appends, with or without an unended line before them.
  lemma {:induction false} WholeAppends(lines: Lines, run: Run, n: nat)
    requires Base(lines, run) && n <= |RunRecords(run, Successful(lines))|
    ensures Sound(PutAll(lines, RunRecords(run, Successful(lines))[..n])) <==> !Reaches(lines, run, n)
  {
    hide Sound, Successful, Has;
    var records := RunRecords(run, Successful(lines));
    if !EndsOpen(lines) {
      AppendsKeepSound(lines, run, n);
    } else if n > 0 {
      SpoilingAppends(lines, run, n);
    } else {
      BaseIsSound(lines, run);
      assert records[..0] == [];
    }
  }

  lemma {:induction false} BaseIsSound(lines: Lines, run: Run)
    requires Base(lines, run)
    ensures Sound(lines) && Belongs(lines, run.candidate, run.plan)
  {}

  // The run reaches the stage whose only pass is the unended last line: its first
  // append spoils that line, and it still records the stage as resumed.
  predicate LosesPass(journal: Option<Lines>, run: Run)
    requires run.Valid()
  {
    var lines := LinesOf(journal);
    Starts(journal, run) && Reaches(lines, run, Left(run, RunRecords(run, Successful(lines))))
  }

  // One run keeps the journal sound exactly if it does not lose a pass.
  lemma {:induction false} RunKeepsSound(journal: Option<Lines>, run: Run)
    requires run.Valid() && Sound(LinesOf(journal))
    ensures Sound(LinesOf(After(journal, run))) <==> !LosesPass(journal, run)
  {
    if Starts(journal, run) {
      var lines := LinesOf(journal);
      SuccessfulStages(lines);
      var records := RunRecords(run, Successful(lines));
      assert Base(lines, run);
      if run.appends >= |records| {
        WholeAppends(lines, run, |records|);
        assert records[..|records|] == records;
      } else {
        CutKeepsSound(journal, run);
      }
    }
  }

  lemma {:induction false} CutKeepsSound(journal: Option<Lines>, run: Run)
    requires Base(LinesOf(journal), run) && Starts(journal, run)
    requires run.appends < |RunRecords(run, Successful(LinesOf(journal)))|
    ensures Sound(LinesOf(After(journal, run))) <==> !LosesPass(journal, run)
  {
    hide Sound, Successful, Has;
    var lines := LinesOf(journal);
    var records, n := RunRecords(run, Successful(lines)), run.appends;
    var before := PutAll(lines, records[..n]);
    WholeAppends(lines, run, n);
    if n == 0 { assert records[..0] == [] && before == lines; }
    match run.cut {
      case Unopened =>
      case Empty =>
      case Inside =>
        if EndsOpen(before) {
          if n > 0 { NotOpenAfter(lines, records, n); }
          WithoutLast(lines, run);
        } else {
          RecordsBelong(lines, run, n);
          TornAppend(before, run);
        }
      case BeforeNewline =>
        OpenAppend(lines, records, n + 1);
        WholeAppends(lines, run, n + 1);
    }
  }

  lemma {:induction false} RecordsBelong(lines: Lines, run: Run, n: nat)
    requires run.Valid() && Belongs(lines, run.candidate, run.plan) && n <= |RunRecords(run, Successful(lines))|
    ensures Belongs(PutAll(lines, RunRecords(run, Successful(lines))[..n]), run.candidate, run.plan)
  {
    hide Successful;
    var records := RunRecords(run, Successful(lines));
    StagesBelong(run, Successful(lines), 0);
    if n > 0 {
      AfterFirst(lines, records, n);
      var tail := Entries(records[1..n]);
      assert forall i :: 0 <= i < |tail| ==> tail[i].record == records[i + 1];
    }
  }

  lemma {:induction false} StagesBelong(run: Run, done: set<Gate>, k: nat)
    requires run.Valid() && k <= run.through
    ensures forall r :: r in StageRecords(run, done, k) ==> r.candidate == run.candidate && r.plan == run.plan
    decreases run.through - k
  {
    if k < run.through { StagesBelong(run, done, k + 1); }
  }

  // ----- Resuming

  // The run leaves text that is not a record: its last append is cut inside, or it
  // writes anything after an unended line.
  predicate Spoils(journal: Option<Lines>, run: Run)
    requires run.Valid()
  {
    var lines := LinesOf(journal);
    var stopped := run.appends < |RunRecords(run, Successful(lines))|;
    && Starts(journal, run)
    && ((stopped && run.cut == Inside)
        || (EndsOpen(lines) && (run.appends > 0 || (stopped && run.cut == BeforeNewline))))
  }

  // A run leaves a journal that may be resumed exactly if it does not spoil it.
  lemma {:induction false} RunKeepsResumable(journal: Option<Lines>, run: Run)
    requires run.Valid() && Starts(journal, run)
    requires Admits(LinesOf(journal), run.candidate, run.plan)
    ensures Admits(LinesOf(After(journal, run)), run.candidate, run.plan) <==> !Spoils(journal, run)
  {
    hide Successful, StageRecords, Belongs;
    var lines := LinesOf(journal);
    var records := RunRecords(run, Successful(lines));
    var n := Min(run.appends, |records|);
    var before := PutAll(lines, records[..n]);
    assert records[..|records|] == records;
    RecordsBelong(lines, run, n);
    PutAllIntact(lines, records, n);
    if n > 0 { NotOpenAfter(lines, records, n); } else { assert before == lines; }
    if run.appends < |records| { CutBelongs(lines, run, before); }
  }

  lemma {:induction false} PutAllIntact(lines: Lines, records: seq<Record>, n: nat)
    requires Intact(lines) && n <= |records|
    ensures Intact(PutAll(lines, records[..n])) <==> !(EndsOpen(lines) && n > 0)
  {
    if n > 0 {
      AfterFirst(lines, records, n);
      var all := PutAll(lines, records[..n]);
      if EndsOpen(lines) { assert all[|lines| - 1] == Torn; }
    }
  }

  lemma {:induction false} CutBelongs(lines: Lines, run: Run, before: Lines)
    requires run.Valid() && run.appends < |RunRecords(run, Successful(lines))| && Belongs(before, run.candidate, run.plan)
    ensures var record := RunRecords(run, Successful(lines))[run.appends];
            && Belongs(Put(before, Unended(record)), run.candidate, run.plan)
            && Belongs(Put(before, Torn), run.candidate, run.plan)
            && (Intact(Put(before, Torn)) <==> false)
            && (Intact(before) ==> (Intact(Put(before, Unended(record))) <==> !EndsOpen(before)))
  {
    hide Successful;
    StagesBelong(run, Successful(lines), 0);
    var record := RunRecords(run, Successful(lines))[run.appends];
    var a, b := Put(before, Torn), Put(before, Unended(record));
    assert a[|a| - 1] == Torn;
    if EndsOpen(before) { assert b[|b| - 1] == Torn; }
  }

  // ----- Any sequence of runs

  function History(runs: seq<Run>): Option<Lines>
    requires forall i :: 0 <= i < |runs| ==> runs[i].Valid()
  {
    if runs == [] then None else After(History(runs[..|runs| - 1]), runs[|runs| - 1])
  }

  // Run i of the history loses a pass.
  ghost predicate LosesAt(runs: seq<Run>, i: nat)
    requires i < |runs| && forall k :: 0 <= k < |runs| ==> runs[k].Valid()
  {
    LosesPass(History(runs[..i]), runs[i])
  }

  // A lost pass also spoils the journal, so no later run is let in.
  lemma {:induction false} LosingSpoils(journal: Option<Lines>, run: Run)
    requires run.Valid() && LosesPass(journal, run)
    ensures !Intact(LinesOf(After(journal, run)))
  {
    var lines := LinesOf(journal);
    assert EndsOpen(lines) && Admits(lines, run.candidate, run.plan);
    RunKeepsResumable(journal, run);
    RunBelongs(journal, run);
  }

  lemma {:induction false} RunBelongs(journal: Option<Lines>, run: Run)
    requires run.Valid() && Starts(journal, run) && Belongs(LinesOf(journal), run.candidate, run.plan)
    ensures Belongs(LinesOf(After(journal, run)), run.candidate, run.plan)
  {
    hide Successful, StageRecords, Belongs;
    var lines := LinesOf(journal);
    var records := RunRecords(run, Successful(lines));
    var n := Min(run.appends, |records|);
    assert records[..|records|] == records;
    RecordsBelong(lines, run, n);
    if n == 0 { assert PutAll(lines, records[..0]) == lines; }
    if run.appends < |records| { CutBelongs(lines, run, PutAll(lines, records[..n])); }
  }

  // The journal of a history is sound exactly if no run of it loses a pass.
  lemma {:induction false} HistorySoundness(runs: seq<Run>)
    requires forall i :: 0 <= i < |runs| ==> runs[i].Valid()
    ensures Sound(LinesOf(History(runs))) <==> forall i :: 0 <= i < |runs| ==> !LosesAt(runs, i)
    ensures !Sound(LinesOf(History(runs))) ==> !Intact(LinesOf(History(runs)))
  {
    hide Sound, LosesPass, After, Intact;
    if runs == [] {
      NothingIsSound();
    } else {
      var front, last := runs[..|runs| - 1], runs[|runs| - 1];
      HistorySoundness(front);
      forall i | 0 <= i < |front|
        ensures LosesAt(runs, i) <==> LosesAt(front, i)
      {
        assert runs[..i] == front[..i];
      }
      var before := History(front);
      if Sound(LinesOf(before)) {
        RunKeepsSound(before, last);
        if LosesPass(before, last) { LosingSpoils(before, last); }
      } else {
        RefusedStays(before, last);
      }
      assert LosesAt(runs, |runs| - 1) <==> LosesPass(before, last);
    }
  }

  lemma {:induction false} NothingIsSound()
    ensures Sound([])
  {}

  // A spoiled journal is never resumed and never changes again.
  lemma {:induction false} RefusedStays(journal: Option<Lines>, run: Run)
    requires run.Valid() && !Intact(LinesOf(journal))
    ensures After(journal, run) == journal && !LosesPass(journal, run)
  {}

  // Without a cut just before a newline every history is sound.
  lemma {:induction false} OtherCutsAreSafe(runs: seq<Run>)
    requires forall i :: 0 <= i < |runs| ==> runs[i].Valid() && runs[i].cut != BeforeNewline
    ensures Sound(LinesOf(History(runs))) && !EndsOpen(LinesOf(History(runs)))
  {
    hide Sound;
    if runs == [] {
      NothingIsSound();
    } else {
      var front, last := runs[..|runs| - 1], runs[|runs| - 1];
      OtherCutsAreSafe(front);
      RunKeepsSound(History(front), last);
      StaysClosed(History(front), last);
    }
  }

  lemma {:induction false} StaysClosed(journal: Option<Lines>, run: Run)
    requires run.Valid() && !EndsOpen(LinesOf(journal)) && run.cut != BeforeNewline
    ensures !EndsOpen(LinesOf(After(journal, run)))
  {
    hide Successful, StageRecords;
    if Starts(journal, run) {
      var lines := LinesOf(journal);
      var records := RunRecords(run, Successful(lines));
      var n := Min(run.appends, |records|);
      assert records[..|records|] == records;
      if n > 0 { NotOpenAfter(lines, records, n); }
    }
  }

  const FIRST := Run(0, 0, false, 1, true, [true, true, true], 1, BeforeNewline)
  const SECOND := Run(0, 0, true, 1, true, [true, true, true], 2, Unopened)

  // The pass of a stage is cut just before its newline; the resumed run spoils it,
  // records the stage as resumed and completes, and the journal is refused from then on.
  lemma {:induction false} LostPass()
    ensures History([FIRST]) == Some([Entry(Record(0, 0, Identity, Passed)), Unended(Record(0, 0, Agent, Passed))])
    ensures History([FIRST, SECOND])
         == Some([Entry(Record(0, 0, Identity, Passed)), Torn, Entry(Record(0, 0, Agent, Resumed))])
    ensures !Sound(LinesOf(History([FIRST, SECOND]))) && !Intact(LinesOf(History([FIRST, SECOND])))
    ensures Completes(History([FIRST]), SECOND) && Succeeds(History([FIRST]), SECOND)
  {
    FirstRun();
    SecondRun();
    assert [FIRST, SECOND][..1] == [FIRST] && [FIRST][..0] == [];
    var lines := [Entry(Record(0, 0, Identity, Passed)), Torn, Entry(Record(0, 0, Agent, Resumed))];
    assert History([FIRST]) == After(None, FIRST) && History([FIRST, SECOND]) == After(History([FIRST]), SECOND);
    assert lines[2].Readable() && !Fits(lines[..2], lines[2].record);
    assert lines[1] == Torn;
  }

  lemma {:induction false} FirstRun()
    ensures After(None, FIRST) == Some([Entry(Record(0, 0, Identity, Passed)), Unended(Record(0, 0, Agent, Passed))])
  {
    assert Successful([]) == {};
    var records := RunRecords(FIRST, {});
    assert StageRecords(FIRST, {}, 0) == [FIRST.Rec(Agent, Passed)] by { NoMoreStages(FIRST, {}); }
    assert records == [FIRST.Rec(Identity, Passed), FIRST.Rec(Agent, Passed)];
    assert records[..1] == [records[0]] && [records[0]][1..] == [];
    assert PutAll([], records[..1]) == [Entry(records[0])];
    assert Put([Entry(records[0])], Unended(records[1])) == [Entry(records[0]), Unended(records[1])];
    assert Starts(None, FIRST) && RunRecords(FIRST, Successful(LinesOf(None))) == records;
  }

  lemma {:induction false} SecondRun()
    ensures var before := [Entry(Record(0, 0, Identity, Passed)), Unended(Record(0, 0, Agent, Passed))];
            && After(Some(before), SECOND) == Some([before[0], Torn, Entry(Record(0, 0, Agent, Resumed))])
            && Completes(Some(before), SECOND) && Succeeds(Some(before), SECOND)
  {
    var before := [Entry(Record(0, 0, Identity, Passed)), Unended(Record(0, 0, Agent, Passed))];
    var done := Successful(before);
    assert before[1].Says(Agent, Passed);
    assert Agent in done;
    assert StageRecords(SECOND, done, 0) == [SECOND.Rec(Agent, Resumed)] by { NoMoreStages(SECOND, done); }
    var records := RunRecords(SECOND, done);
    assert records == [SECOND.Rec(Identity, Passed), SECOND.Rec(Agent, Resumed)];
    assert records[1..] == [records[1]];
    assert before[..1] == [before[0]];
    assert PutAll(before, records) == [before[0], Torn, Entry(records[1])];
    assert Starts(Some(before), SECOND) && LinesOf(Some(before)) == before;
  }

  // ----- Exit codes

  // The run is let in and makes all its appends.
  predicate Completes(journal: Option<Lines>, run: Run)
    requires run.Valid()
  {
    Starts(journal, run) && run.appends >= |RunRecords(run, Successful(LinesOf(journal)))|
  }

  // Every check the run makes turns out well.
  predicate Succeeds(journal: Option<Lines>, run: Run)
    requires run.Valid()
  {
    run.identityOk && forall i :: 0 <= i < run.through ==> STAGES[i] in Successful(LinesOf(journal)) || run.stageOk[i]
  }

  // Every stage asked for has a pass in the journal.
  predicate ShowsPasses(lines: Lines, run: Run)
    requires run.Valid()
  {
    forall i :: 0 <= i < run.through ==> Has(lines, STAGES[i], Passed)
  }

  // A successful run leaves a pass for every stage exactly if it does not lose one;
  // an unsuccessful one leaves some stage without.
  lemma {:induction false} CodeMeansPasses(journal: Option<Lines>, run: Run)
    requires run.Valid() && Sound(LinesOf(journal)) && Completes(journal, run)
    ensures Succeeds(journal, run) ==> (ShowsPasses(LinesOf(After(journal, run)), run) <==> !LosesPass(journal, run))
    ensures run.identityOk && !Succeeds(journal, run) ==> !ShowsPasses(LinesOf(After(journal, run)), run)
  {
    hide Sound, Successful, Has;
    var lines := LinesOf(journal);
    SuccessfulStages(lines);
    var done := Successful(lines);
    var records := RunRecords(run, done);
    if run.identityOk {
      var stages := StageRecords(run, done, 0);
      assert records[1..] == stages;
      AfterFirst(lines, records, |records|);
      assert records[..|records|] == records;
      if Succeeds(journal, run) {
        AllStages(run, done, 0);
        SuccessShows(journal, run);
      } else {
        var i :| 0 <= i < run.through && STAGES[i] !in done && !run.stageOk[i];
        FailureHides(journal, run, i);
      }
    }
  }

  lemma {:induction false} AllStages(run: Run, done: set<Gate>, k: nat)
    requires run.Valid() && k <= run.through
    requires forall i :: k <= i < run.through ==> STAGES[i] in done || run.stageOk[i]
    ensures |StageRecords(run, done, k)| == run.through - k
    ensures forall i :: k <= i < run.through ==>
              StageRecords(run, done, k)[i - k] == run.Rec(STAGES[i], if STAGES[i] in done then Resumed else Passed)
    decreases run.through - k
  {
    if k < run.through { AllStages(run, done, k + 1); }
  }

  // What a stage's records say about its pass, for any stage.
  lemma {:induction false} StagePasses(run: Run, done: set<Gate>, k: nat, i: nat)
    requires run.Valid() && k <= run.through && i < |STAGES|
    ensures Has(Entries(StageRecords(run, done, k)), STAGES[i], Passed) ==>
              k <= i < run.through && STAGES[i] !in done && run.stageOk[i]
    decreases run.through - k
  {
    var stages := StageRecords(run, done, k);
    if k < run.through && Has(Entries(stages), STAGES[i], Passed) {
      StageUnfold(run, done, k);
      StagePasses(run, done, k + 1, i);
      var m :| 0 <= m < |Entries(stages)| && Entries(stages)[m].Says(STAGES[i], Passed);
      if m == 0 {
        assert StageIndex(STAGES[i]) == i && StageIndex(STAGES[k]) == k;
      } else {
        var rest := StageRecords(run, done, k + 1);
        assert Entries(rest)[m - 1] == Entries(stages)[m];
      }
    }
  }

  lemma {:induction false} FailureHides(journal: Option<Lines>, run: Run, i: nat)
    requires run.Valid() && Sound(LinesOf(journal)) && Completes(journal, run) && run.identityOk
    requires i < run.through && STAGES[i] !in Successful(LinesOf(journal)) && !run.stageOk[i]
    ensures !Has(LinesOf(After(journal, run)), STAGES[i], Passed)
  {
    hide Sound, Successful, Has;
    var lines := LinesOf(journal);
    SuccessfulStages(lines);
    PassesAfter(journal, run, i);
    StagePasses(run, Successful(lines), 0, i);
  }

  // Passes after a completed run: those left from before and those of its stages.
  lemma {:induction false} PassesAfter(journal: Option<Lines>, run: Run, i: nat)
    requires run.Valid() && Sound(LinesOf(journal)) && Completes(journal, run) && run.identityOk && i < |STAGES|
    ensures var lines := LinesOf(journal);
            Has(LinesOf(After(journal, run)), STAGES[i], Passed) <==>
              || Has(Entries(StageRecords(run, Successful(lines), 0)), STAGES[i], Passed)
              || (Has(lines, STAGES[i], Passed) && !(OpenPass(lines) && lines[|lines| - 1].record.gate == STAGES[i]))
  {
    hide Sound, Successful, Has;
    var lines := LinesOf(journal);
    SuccessfulStages(lines);
    assert Base(lines, run);
    var records := RunRecords(run, Successful(lines));
    AfterFirst(lines, records, |records|);
    assert records[..|records|] == records && records[1..] == StageRecords(run, Successful(lines), 0);
    var start := Put(lines, Entry(records[0]));
    HasMore(start, Entries(records[1..]), STAGES[i], Passed);
    assert STAGES[i] != Identity;
    if EndsOpen(lines) {
      WithoutLast(lines, run);
      LastPassIsOnly(lines, run, i);
    } else {
      HasAppend(lines, Entry(records[0]), STAGES[i], Passed);
    }
  }

  lemma {:induction false} LastPassIsOnly(lines: Lines, run: Run, i: nat)
    requires Base(lines, run) && EndsOpen(lines) && i < |STAGES|
    ensures OpenPass(lines) && lines[|lines| - 1].record.gate == STAGES[i] ==>
              !Has(lines[..|lines| - 1], STAGES[i], Passed)
    ensures lines[|lines| - 1].record.gate == STAGES[i] && lines[|lines| - 1].record.status == Passed ==> OpenPass(lines)
  {
    hide Sound, Successful, Has;
    WithoutLast(lines, run);
    assert STAGES[i] != Identity;
  }

  lemma {:induction false} SuccessShows(journal: Option<Lines>, run: Run)
    requires run.Valid() && Sound(LinesOf(journal)) && Completes(journal, run) && Succeeds(journal, run)
    ensures ShowsPasses(LinesOf(After(journal, run)), run) <==> !LosesPass(journal, run)
  {
    hide Sound, Successful, Has;
    var lines := LinesOf(journal);
    var done := Successful(lines);
    SuccessfulStages(lines);
    AllStages(run, done, 0);
    var stages := StageRecords(run, done, 0);
    forall i | 0 <= i < run.through
      ensures Has(LinesOf(After(journal, run)), STAGES[i], Passed) <==>
              !(OpenPass(lines) && lines[|lines| - 1].record.gate == STAGES[i])
    {
      StageShows(journal, run, i);
    }
    if OpenPass(lines) { LastStage(lines); }
  }

  lemma {:induction false} StageShows(journal: Option<Lines>, run: Run, i: nat)
    requires run.Valid() && Sound(LinesOf(journal)) && Completes(journal, run) && Succeeds(journal, run) && i < run.through
    ensures var lines := LinesOf(journal);
            Has(LinesOf(After(journal, run)), STAGES[i], Passed) <==>
            !(OpenPass(lines) && lines[|lines| - 1].record.gate == STAGES[i])
  {
    hide Sound, Successful, Has, After, Completes;
    var lines := LinesOf(journal);
    var done := Successful(lines);
    SuccessfulStages(lines);
    AllStages(run, done, 0);
    PassesAfter(journal, run, i);
    StagePasses(run, done, 0, i);
    if STAGES[i] !in done { PassIsSaid(StageRecords(run, done, 0), i); }
    if OpenPass(lines) && lines[|lines| - 1].record.gate == STAGES[i] { LastSaysPass(lines); }
  }

  lemma {:induction false} PassIsSaid(stages: seq<Record>, i: nat)
    requires i < |stages| && i < |STAGES| && stages[i].gate == STAGES[i] && stages[i].status == Passed
    ensures Has(Entries(stages), STAGES[i], Passed)
  {
    assert Entries(stages)[i].Says(STAGES[i], Passed);
  }

  lemma {:induction false} LastSaysPass(lines: Lines)
    requires OpenPass(lines)
    ensures Has(lines, lines[|lines| - 1].record.gate, Passed)
  {
    assert lines[|lines| - 1].Says(lines[|lines| - 1].record.gate, Passed);
  }

  lemma {:induction false} LastStage(lines: Lines)
    requires OpenPass(lines)
    ensures var gate := lines[|lines| - 1].record.gate;
            0 <= StageIndex(gate) < |STAGES| && STAGES[StageIndex(gate)] == gate
            && forall i :: 0 <= i < |STAGES| && STAGES[i] == gate ==> i == StageIndex(gate)
  {}

  // ----- The run itself

  method LoadPrior(journal: Option<Lines>, candidate: Digest, plan: Digest, resume: bool) returns (r: Result<set<Gate>>)
    ensures r.Ok? <==> journal.None? || (resume && Admits(journal.value, candidate, plan))
    ensures r.Ok? ==> r.value == Successful(LinesOf(journal))
  {
    hide Has;
    NothingPassed();
    if journal.None? { return Ok({}); }
    if !resume { return Err; }
    var lines, successful := journal.value, {};
    for i := 0 to |lines|
      invariant Admits(lines[..i], candidate, plan)
      invariant forall gate :: gate in successful <==> Succeeded(lines[..i], gate)
    {
      assert lines[..i + 1] == lines[..i] + [lines[i]];
      if lines[i].Torn? {
        assert !lines[i].Readable();
        return Err;
      }
      var record := lines[i].record;
      if record.candidate != candidate || record.plan != plan {
        assert lines[i].Readable();
        return Err;
      }
      forall gate
        ensures Succeeded(lines[..i + 1], gate) <==>
                Succeeded(lines[..i], gate) || (record.gate == gate && record.status != Failed)
      {
        HasAppend(lines[..i], lines[i], gate, Passed);
        HasAppend(lines[..i], lines[i], gate, Resumed);
      }
      if record.status == Passed || record.status == Resumed {
        successful := successful + {record.gate};
      }
      assert forall gate :: gate in successful <==> Succeeded(lines[..i + 1], gate);
    }
    assert lines[..|lines|] == lines;
    forall gate: Gate
      ensures gate in successful <==> gate in Successful(lines)
    {
      assert gate.Identity? || gate.Agent? || gate.Scout? || gate.Matrix?;
    }
    return Ok(successful);
  }

  lemma {:induction false} NothingPassed()
    ensures forall gate, status :: !Has([], gate, status)
  {}

  // The journal file of a gate, and the appends its current run may still make.
  class Journal {
    var lines: Option<Lines>
    var left: nat

    constructor ()
      ensures lines == None
    {
      lines, left := None, 0;
    }

    // Append one record, or be stopped somewhere on the way.
    method Append(record: Record, cut: Cut) returns (ok: bool)
      modifies this
      ensures ok <==> old(left) > 0
      ensures ok ==> left == old(left) - 1 && lines == Some(Put(LinesOf(old(lines)), Entry(record)))
      ensures !ok ==> lines == AfterCut(old(lines), record, cut)
    {
      var before := if lines.Some? then lines.value else [];
      ok := left > 0;
      if ok {
        lines, left := Some(Put(before, Entry(record))), left - 1;
      } else if cut != Unopened {
        lines := Some(if cut == Empty then before
                      else if cut == Inside then Put(before, Torn) else Put(before, Unended(record)));
      }
    }
  }

  // Lines written so far by a run, and those still to come.
  ghost predicate Progress(start: Lines, lines: Option<Lines>, left: nat, run: Run, written: seq<Record>, rest: seq<Record>, all: seq<Record>) {
    && written != [] && all == written + rest
    && lines == Some(PutAll(start, written))
    && left + |written| == run.appends
  }

  lemma {:induction false} AppendOne(start: Lines, written: seq<Record>, record: Record)
    requires written != []
    ensures Put(PutAll(start, written), Entry(record)) == PutAll(start, written + [record])
  {
    var more := written + [record];
    assert more[..|written|] == written && more[..|more|] == more;
    NotOpenAfter(start, more, |written|);
    assert more[1..] == written[1..] + [record];
  }

  lemma {:induction false} Reassociate(written: seq<Record>, record: Record, rest: seq<Record>)
    ensures (written + ([record] + rest))[..|written|] == written && (written + ([record] + rest))[|written|] == record
    ensures written + ([record] + rest) == (written + [record]) + rest
    ensures (written + [record]) + [] == written + [record]
  {}

  // The gate: its journal, whether it completes, and what its code means.
  method RunGate(journal: Journal, run: Run) returns (code: Option<int>)
    requires run.Valid()
    modifies journal
    ensures journal.lines == After(old(journal.lines), run)
    ensures code.Some? <==> Completes(old(journal.lines), run)
    ensures code.Some? ==> (code.value == 0 <==> Succeeds(old(journal.lines), run))
  {
    hide Has, Successful;
    var prior := LoadPrior(journal.lines, run.candidate, run.plan, run.resume);
    if prior.Err? { return None; }
    ghost var start := LinesOf(journal.lines);
    var successful := prior.value;
    ghost var all := RunRecords(run, successful);
    journal.left := run.appends;
    var identity := run.Rec(Identity, if run.identityOk then Passed else Failed);
    var ok := journal.Append(identity, run.cut);
    if !ok {
      assert all[0] == identity;
      return None;
    }
    assert [identity][1..] == [] && PutAll(start, [identity]) == Put(start, Entry(identity));
    if !run.identityOk {
      assert [identity] == all;
      return Some(1);
    }
    code := RunStages(journal, run, successful, start, identity);
  }

  // The stage loop, after the identity record.
  method RunStages(journal: Journal, run: Run, successful: set<Gate>, ghost start: Lines, ghost identity: Record)
    returns (code: Option<int>)
    requires run.Valid() && run.identityOk && identity == run.Rec(Identity, Passed)
    requires journal.lines == Some(PutAll(start, [identity])) && journal.left + 1 == run.appends
    modifies journal
    ensures var all := RunRecords(run, successful);
            && (code.Some? <==> run.appends >= |all|)
            && (code.Some? ==> journal.lines == Some(PutAll(start, all)))
            && (code.None? ==>
                  journal.lines == AfterCut(Some(PutAll(start, all[..run.appends])), all[run.appends], run.cut))
    ensures code.Some? ==>
              (code.value == 0 <==> forall i :: 0 <= i < run.through ==> STAGES[i] in successful || run.stageOk[i])
  {
    hide StageRecords, PutAll, AfterCut;
    ghost var all := RunRecords(run, successful);
    ghost var written := [identity];
    var k := 0;
    while k < run.through
      invariant k <= run.through
      invariant Progress(start, journal.lines, journal.left, run, written, StageRecords(run, successful, k), all)
      invariant forall i :: 0 <= i < k ==> STAGES[i] in successful || run.stageOk[i]
      decreases run.through - k
    {
      var status := if STAGES[k] in successful then Resumed else if run.stageOk[k] then Passed else Failed;
      var record := run.Rec(STAGES[k], status);
      StageUnfold(run, successful, k);
      var ok := journal.Append(record, run.cut);
      ghost var rest := if status == Failed then [] else StageRecords(run, successful, k + 1);
      Reassociate(written, record, rest);
      if !ok { return None; }
      AppendOne(start, written, record);
      if status == Failed { return Some(1); }
      written := written + [record];
      k := k + 1;
    }
    NoMoreStages(run, successful);
    assert written + [] == written;
    return Some(0);
  }
}
