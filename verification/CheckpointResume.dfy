/** Resumable evaluation: attempts that may stop anywhere share one directory of checkpoints. */
module CheckpointResume {
  import opened Common
  import opened CheckpointCodec
  import opened CheckpointRoundTrip
  import Files = CheckpointFiles

  type Directory = map<nat, seq<Byte>>

  // One start of the program. What it would measure for each candidate differs from attempt to attempt (timings do).
  // It is stopped while working on candidate `stop`, before or after that candidate's file is published; a stop past
  // the last candidate is no stop.
  datatype Attempt = Attempt(measured: seq<CandidateResult>, stop: nat, published: bool)

  datatype Outcome = Complete | Interrupted | Failed(failure: Failure)

  datatype Progress = Progress(files: Directory, results: seq<CandidateResult>, evaluated: seq<nat>, outcome: Outcome)

  datatype Setting = Setting(configurations: seq<Configuration>, identity: seq<Byte>, digest: Sha256)

  ghost predicate Usable(e: Setting) { |e.identity| == 32 && IsSha256(e.digest) }

  // What `evaluate_candidate` returns: the configuration it was given, and metrics only if it passed.
  ghost predicate Measures(e: Setting, a: Attempt) {
    && |a.measured| == |e.configurations|
    && (forall i :: 0 <= i < |a.measured| ==> Measured(a.measured[i], e.configurations[i]))
  }

  ghost predicate Measured(r: CandidateResult, c: Configuration) {
    && r.configuration == c && |r.metrics.perStratum| == STRATA && (!r.passed ==> r.metrics == ZeroMetrics)
  }

  ghost predicate Ready(e: Setting, a: Attempt) { |e.identity| == 32 && Measures(e, a) }

  function Begin(files: Directory): Progress { Progress(files, [], [], Complete) }

  // One turn of the loop, for candidate |p.results|.
  function Turn(p: Progress, e: Setting, a: Attempt): Progress
    requires Ready(e, a) && |p.results| < |e.configurations|
  {
    var index := |p.results|;
    if index in p.files then
      if index == a.stop then p.(outcome := Interrupted)
      else
        match Parse(p.files[index], index, e.configurations[index], e.identity, e.digest)
        case Ok(r) => p.(results := p.results + [r])
        case Err(f) => p.(outcome := Failed(f))
    else
      var q := p.(evaluated := p.evaluated + [index]);
      if index == a.stop && !a.published then q.(outcome := Interrupted)
      else
        match Serialize(index, a.measured[index], e.identity, e.digest)
        case Err(f) => q.(outcome := Failed(f))
        case Ok(bytes) =>
          var written := q.(files := p.files[index := bytes]);
          if index == a.stop then written.(outcome := Interrupted)
          else written.(results := p.results + [a.measured[index]])
  }

  function Continue(p: Progress, e: Setting, a: Attempt): Progress
    requires Ready(e, a)
    decreases |e.configurations| - |p.results|
  {
    if p.outcome != Complete || |p.results| >= |e.configurations| then p else
      var q := Turn(p, e, a);
      if q.outcome != Complete then q else Continue(q, e, a)
  }

  // Where writing a checkpoint goes wrong, if it does.
  datatype Fault = NoFault | OpenFault | WriteFault | SyncFault | RenameFault | DirectoryFault

  /** The checkpoint directory, and `evaluate_or_resume` on it. */
  class CheckpointDirectory {
    var files: Directory
    // This process's temporary files, by candidate.
    var temporary: Directory

    constructor ()
      ensures files == map[] && temporary == map[]
    {
      files, temporary := map[], map[];
    }

    /** `durable_write`: the file appears whole under its final name or not at all, the temporary name is gone either
        way, and only a fault after the rename leaves a published file behind a failure. */
    method DurableWrite(index: nat, bytes: seq<Byte>, fault: Fault) returns (ok: bool)
      modifies this
      ensures temporary == old(temporary)
      ensures ok <==> fault == NoFault && index !in temporary
      ensures files == if index !in temporary && (ok || fault == DirectoryFault) then old(files)[index := bytes]
                       else old(files)
    {
      if fault == OpenFault || index in temporary {
        return false;
      }
      temporary := temporary[index := bytes];
      if fault == WriteFault || fault == SyncFault || fault == RenameFault {
        temporary := temporary - {index};
        return false;
      }
      files := files[index := temporary[index]];
      temporary := temporary - {index};
      ok := fault == NoFault;
    }

    method EvaluateOrResume(e: Setting, a: Attempt)
      returns (outcome: Outcome, results: seq<CandidateResult>, evaluated: seq<nat>)
      requires Ready(e, a) && temporary == map[]
      modifies this
      ensures temporary == map[]
      ensures Progress(files, results, evaluated, outcome) == Continue(Begin(old(files)), e, a)
    {
      hide Parse, Serialize;
      outcome, results, evaluated := Complete, [], [];
      while |results| < |e.configurations|
        invariant outcome == Complete && temporary == map[]
        invariant Continue(Progress(files, results, evaluated, outcome), e, a) == Continue(Begin(old(files)), e, a)
        decreases |e.configurations| - |results|
      {
        ghost var before := Progress(files, results, evaluated, outcome);
        var index := |results|;
        var result: CandidateResult;
        if index in files {
          if index == a.stop {
            outcome := Interrupted;
            return;
          }
          var parsed := Files.ParseResult(files[index], index, e.configurations[index], e.identity, e.digest);
          if parsed.Err? {
            outcome := Failed(parsed.failure);
            return;
          }
          result := parsed.value;
        } else {
          evaluated := evaluated + [index];
          if index == a.stop && !a.published {
            outcome := Interrupted;
            return;
          }
          result := a.measured[index];
          var serialized := Files.SerializeResult(index, result, e.identity, e.digest);
          if serialized.Err? {
            outcome := Failed(serialized.failure);
            return;
          }
          var ok := DurableWrite(index, serialized.value, if index == a.stop then DirectoryFault else NoFault);
          if !ok {
            outcome := Interrupted;
            return;
          }
        }
        results := results + [result];
        assert Progress(files, results, evaluated, outcome) == Turn(before, e, a);
      }
    }
  }

  // -------- what the directory records --------

  type Record = map<nat, CandidateResult>

  // Every file is the printed form of the result recorded for it.
  ghost predicate Holds(files: Directory, record: Record, e: Setting)
    requires |e.identity| == 32
  {
    && files.Keys == record.Keys
    && (forall i :: i in record ==> Held(files, record, e, i))
  }

  ghost predicate Held(files: Directory, record: Record, e: Setting, i: nat)
    requires i in record
  {
    && i in files && i < |e.configurations| && Measured(record[i], e.configurations[i])
    && Serialize(i, record[i], e.identity, e.digest) == Ok(files[i])
  }

  // The condition under which a checkpoint reads back.
  ghost predicate Fits(i: nat, r: CandidateResult) { EncodedSize(r) <= 4096 && Narrow(i, r) }

  /** A recorded result reads back as itself exactly when it fits; otherwise its file is refused. */
  lemma ReadsBack(files: Directory, record: Record, e: Setting, i: nat)
    requires Usable(e) && Holds(files, record, e) && i in record
    ensures var parsed := Parse(files[i], i, e.configurations[i], e.identity, e.digest);
            if Fits(i, record[i]) then parsed == Ok(record[i]) else parsed.Err?
  {
    hide Parse, Narrow, EncodedSize;
    assert Held(files, record, e, i);
    assert |record[i].reason| <= 65535;
    RoundTripExactly(i, record[i], e.identity, e.digest);
  }

  // Whether an attempt gets candidate i onto the disk, if it was not there.
  predicate Reaches(a: Attempt, i: nat) { i < a.stop || (i == a.stop && a.published) }

  function After(record: Record, a: Attempt): Record {
    (map i: nat | 0 <= i < |a.measured| && Reaches(a, i) :: a.measured[i]) + record
  }

  ghost predicate AllFit(a: Attempt) { forall i :: 0 <= i < |a.measured| ==> Fits(i, a.measured[i]) }
  ghost predicate RecordFits(record: Record) { forall i :: i in record ==> Fits(i, record[i]) }

  // What holds at the head of the loop.
  ghost predicate Underway(p: Progress, record: Record, e: Setting, a: Attempt) {
    && Usable(e) && Ready(e, a) && Holds(p.files, record, e) && RecordFits(record) && AllFit(a)
    && p.outcome == Complete && |p.results| <= |e.configurations| && |p.results| <= a.stop
    && (forall i :: 0 <= i < |p.results| ==> i in record && p.results[i] == record[i])
  }

  // A turn on a candidate already on the disk.
  lemma TurnReads(p: Progress, record: Record, e: Setting, a: Attempt)
    requires Underway(p, record, e, a) && |p.results| < |e.configurations| && |p.results| in record
    ensures var q := Turn(p, e, a);
            && q.evaluated == p.evaluated && q.files == p.files
            && if |p.results| == a.stop then q.outcome == Interrupted
               else |q.results| == |p.results| + 1 && Underway(q, record, e, a)
  {
    hide Parse, Serialize, Fits, Measured, Held, AllFit;
    ReadsBack(p.files, record, e, |p.results|);
  }

  // A turn that publishes a new candidate.
  lemma TurnPublishes(p: Progress, record: Record, e: Setting, a: Attempt) returns (next: Record)
    requires Underway(p, record, e, a) && |p.results| < |e.configurations| && |p.results| !in record
    requires |p.results| != a.stop || a.published
    ensures next == record[|p.results| := a.measured[|p.results|]]
    ensures var q := Turn(p, e, a);
            && q.evaluated == p.evaluated + [|p.results|] && Holds(q.files, next, e) && RecordFits(next)
            && if |p.results| == a.stop then q.outcome == Interrupted
               else q.outcome == Complete && q.results == p.results + [a.measured[|p.results|]]
  {
    hide Parse, EncodedSize, Narrow, Body;
    var index := |p.results|;
    next := record[index := a.measured[index]];
    var r := a.measured[index];
    assert Fits(index, r) && Measured(r, e.configurations[index]);
    assert |r.reason| <= 65535 by { ShortReason(index, r); }
    var q := Turn(p, e, a);
    assert index !in p.files;
    forall i | i in next ensures Held(q.files, next, e, i) {
      if i != index { assert Held(p.files, record, e, i); }
    }
  }

  // One turn: either the stop, or one more result, read or measured.
  lemma TurnKeeps(p: Progress, record: Record, e: Setting, a: Attempt) returns (next: Record)
    requires Underway(p, record, e, a) && |p.results| < |e.configurations|
    ensures After(next, a) == After(record, a)
    ensures next == record || next == record[|p.results| := a.measured[|p.results|]]
    ensures Turn(p, e, a).evaluated == p.evaluated + (if |p.results| in record then [] else [|p.results|])
    ensures var q := Turn(p, e, a);
            if |p.results| == a.stop
            then q.outcome == Interrupted && Holds(q.files, next, e) && After(record, a) == next
            else |q.results| == |p.results| + 1 && Underway(q, next, e, a)
  {
    hide Holds, AllFit, RecordFits, Usable, Turn, After, Measured;
    var index := |p.results|;
    if index in record {
      next := record;
      TurnReads(p, record, e, a);
    } else if index == a.stop && !a.published {
      next := record;
      TurnStops(p, record, e, a);
    } else {
      next := TurnPublishes(p, record, e, a);
      SameAfter(record, a, index);
    }
    if index == a.stop {
      Settled(next, p, e, a);
    }
  }

  // A turn stopped before it publishes.
  lemma TurnStops(p: Progress, record: Record, e: Setting, a: Attempt)
    requires Underway(p, record, e, a) && |p.results| < |e.configurations| && |p.results| !in record
    requires |p.results| == a.stop && !a.published
    ensures Turn(p, e, a) == p.(evaluated := p.evaluated + [|p.results|], outcome := Interrupted)
  {
    hide Parse, Serialize, Held, AllFit, RecordFits;
  }

  lemma SameAfter(record: Record, a: Attempt, i: nat)
    requires i < |a.measured| && Reaches(a, i) && i !in record
    ensures After(record[i := a.measured[i]], a) == After(record, a)
  {}

  lemma ShortReason(i: nat, r: CandidateResult)
    requires Fits(i, r)
    ensures |r.reason| <= 65535
  {}

  // Nothing more is recorded once the stop is reached.
  lemma Settled(record: Record, p: Progress, e: Setting, a: Attempt)
    requires |a.measured| == |e.configurations| && |p.results| == a.stop
    requires forall i :: 0 <= i < a.stop ==> i in record
    requires a.published && a.stop < |a.measured| ==> a.stop in record
    ensures After(record, a) == record
  {}

  ghost predicate Returns(q: Progress, record: Record, e: Setting) {
    && |q.results| == |e.configurations|
    && (forall i :: 0 <= i < |q.results| ==> i in record && q.results[i] == record[i])
  }

  /** An attempt over checkpoints that fit never fails: it completes unless it is stopped, returns for every candidate
      what the directory records afterwards, leaves what was recorded as it was, and evaluates only what was missing. */
  lemma {:induction false} AttemptRecords(p: Progress, record: Record, e: Setting, a: Attempt)
    requires Underway(p, record, e, a)
    ensures var q := Continue(p, e, a); var after := After(record, a);
            && q.outcome == (if a.stop < |e.configurations| then Interrupted else Complete)
            && Holds(q.files, after, e)
            && (a.stop >= |e.configurations| ==> Returns(q, after, e))
            && (forall i :: i in q.evaluated <==>
                  i in p.evaluated || (|p.results| <= i < |e.configurations| && i <= a.stop && i !in record))
    decreases |e.configurations| - |p.results|
  {
    hide Turn, Holds, Measures, AllFit, RecordFits, Usable, After;
    if |p.results| == |e.configurations| {
      assert After(record, a) == record by { Whole(p, record, e, a); }
    } else {
      var next := TurnKeeps(p, record, e, a);
      var q := Turn(p, e, a);
      if |p.results| != a.stop {
        AttemptRecords(q, next, e, a);
        forall i ensures i in q.evaluated <==> i in p.evaluated || (i == |p.results| && i !in record) {}
      }
    }
  }

  lemma Whole(p: Progress, record: Record, e: Setting, a: Attempt)
    requires Underway(p, record, e, a) && |p.results| == |e.configurations|
    ensures After(record, a) == record
  {
    hide Holds, AllFit, RecordFits, Usable;
  }

  // -------- every pattern of interruptions and restarts --------

  function FilesAfter(attempts: seq<Attempt>, e: Setting): Directory
    requires forall k :: 0 <= k < |attempts| ==> Ready(e, attempts[k])
    decreases |attempts|
  {
    if attempts == [] then map[]
    else Continue(Begin(FilesAfter(attempts[..|attempts| - 1], e)), e, attempts[|attempts| - 1]).files
  }

  function RecordAfter(attempts: seq<Attempt>): Record
    decreases |attempts|
  {
    if attempts == [] then map[] else After(RecordAfter(attempts[..|attempts| - 1]), attempts[|attempts| - 1])
  }

  // The first attempt that got candidate i onto the disk, or |attempts|.
  function FirstReach(attempts: seq<Attempt>, i: nat): (k: nat)
    ensures k <= |attempts| && (k < |attempts| ==> Reaches(attempts[k], i))
    ensures forall j :: 0 <= j < k ==> !Reaches(attempts[j], i)
    decreases |attempts|
  {
    if attempts == [] then 0
    else
      var k := FirstReach(attempts[..|attempts| - 1], i);
      if k < |attempts| - 1 || Reaches(attempts[|attempts| - 1], i) then k else |attempts|
  }

  ghost predicate Sound(attempts: seq<Attempt>, e: Setting) {
    forall k :: 0 <= k < |attempts| ==> Ready(e, attempts[k]) && AllFit(attempts[k])
  }

  lemma {:induction false} HistoryHolds(attempts: seq<Attempt>, e: Setting)
    requires Usable(e) && Sound(attempts, e)
    ensures Holds(FilesAfter(attempts, e), RecordAfter(attempts), e) && RecordFits(RecordAfter(attempts))
    decreases |attempts|
  {
    hide Continue, Held, Fits;
    if attempts != [] {
      var front, last := attempts[..|attempts| - 1], attempts[|attempts| - 1];
      HistoryHolds(front, e);
      AttemptRecords(Begin(FilesAfter(front, e)), RecordAfter(front), e, last);
    }
  }

  lemma {:induction false} RecordIsFirst(attempts: seq<Attempt>, e: Setting, i: nat)
    requires Sound(attempts, e) && i < |e.configurations|
    ensures i in RecordAfter(attempts) <==> FirstReach(attempts, i) < |attempts|
    ensures i in RecordAfter(attempts) ==> RecordAfter(attempts)[i] == attempts[FirstReach(attempts, i)].measured[i]
    decreases |attempts|
  {
    hide AllFit;
    if attempts != [] {
      RecordIsFirst(attempts[..|attempts| - 1], e, i);
    }
  }

  /** After any attempts stopped anywhere, one more attempt run to the end returns for every candidate what the first
      attempt to publish it measured, and evaluates exactly the candidates nobody had published. */
  lemma ResumeReturnsFirst(attempts: seq<Attempt>, last: Attempt, e: Setting)
    requires Usable(e) && Sound(attempts, e) && Ready(e, last) && AllFit(last) && last.stop >= |e.configurations|
    ensures var q := Continue(Begin(FilesAfter(attempts, e)), e, last);
            && q.outcome == Complete && |q.results| == |e.configurations|
            && (forall i :: 0 <= i < |q.results| ==>
                  var k := FirstReach(attempts, i);
                  q.results[i] == (if k < |attempts| then attempts[k] else last).measured[i])
            && (forall i: nat :: i in q.evaluated <==> i < |e.configurations| && FirstReach(attempts, i) == |attempts|)
  {
    hide Continue, Fits, Held, FirstReach, RecordAfter, AllFit;
    HistoryHolds(attempts, e);
    var record := RecordAfter(attempts);
    AttemptRecords(Begin(FilesAfter(attempts, e)), record, e, last);
    forall i: nat | i < |e.configurations|
      ensures i in record <==> FirstReach(attempts, i) < |attempts|
      ensures i in record ==> record[i] == attempts[FirstReach(attempts, i)].measured[i]
    {
      RecordIsFirst(attempts, e, i);
    }
  }

  /** A published checkpoint is never rewritten by a later attempt. */
  lemma {:induction false} PublishedIsFinal(p: Progress, e: Setting, a: Attempt, i: nat)
    requires Ready(e, a) && i in p.files
    ensures i in Continue(p, e, a).files && Continue(p, e, a).files[i] == p.files[i]
    decreases |e.configurations| - |p.results|
  {
    hide Parse, Serialize;
    if p.outcome == Complete && |p.results| < |e.configurations| {
      var q := Turn(p, e, a);
      if q.outcome == Complete {
        PublishedIsFinal(q, e, a, i);
      }
    }
  }

  // -------- exactly when an attempt completes --------

  // The first recorded candidate whose checkpoint does not fit ends the attempt.
  ghost predicate Readable(record: Record, e: Setting, a: Attempt, from: nat)
    requires Ready(e, a)
  {
    forall i: nat :: from <= i < |e.configurations| ==>
      if i in record then Fits(i, record[i]) else |a.measured[i].reason| <= 65535
  }

  /** An attempt that nobody stops completes exactly when every checkpoint it finds fits and every reason it measures
      has at most 65535 bytes: one oversized checkpoint makes every later attempt fail. */
  lemma {:induction false} CompletesExactly(p: Progress, record: Record, e: Setting, a: Attempt)
    requires Usable(e) && Ready(e, a) && Holds(p.files, record, e) && a.stop >= |e.configurations|
    requires p.outcome == Complete && |p.results| <= |e.configurations|
    ensures Continue(p, e, a).outcome == Complete <==> Readable(record, e, a, |p.results|)
    decreases |e.configurations| - |p.results|
  {
    hide Parse, Serialize, Fits, Measured;
    var index := |p.results|;
    if index < |e.configurations| {
      var q := Turn(p, e, a);
      if index in record {
        ReadsBack(p.files, record, e, index);
        if q.outcome == Complete {
          CompletesExactly(q, record, e, a);
        }
      } else {
        var next := PublishHolds(p, record, e, a);
        if q.outcome == Complete {
          CompletesExactly(q, next, e, a);
          assert Readable(record, e, a, index + 1) <==> Readable(next, e, a, index + 1);
        }
      }
    }
  }

  lemma PublishHolds(p: Progress, record: Record, e: Setting, a: Attempt) returns (next: Record)
    requires Usable(e) && Ready(e, a) && Holds(p.files, record, e) && a.stop >= |e.configurations|
    requires p.outcome == Complete && |p.results| < |e.configurations| && |p.results| !in record
    ensures next == record[|p.results| := a.measured[|p.results|]]
    ensures var q := Turn(p, e, a);
            if |a.measured[|p.results|].reason| <= 65535
            then q.outcome == Complete && |q.results| == |p.results| + 1 && Holds(q.files, next, e)
            else q.outcome != Complete
  {
    hide Parse, Body;
    var index := |p.results|;
    next := record[index := a.measured[index]];
    var q := Turn(p, e, a);
    if |a.measured[index].reason| <= 65535 {
      forall i | i in next ensures Held(q.files, next, e, i) {
        if i != index { assert Held(p.files, record, e, i); }
      }
    }
  }

  // -------- a checkpoint that is written and never read --------

  // A failed candidate whose reason is one byte too long to read back.
  function Oversized(c: Configuration): CandidateResult { CandidateResult(false, seq(3958, _ => 0), c, ZeroMetrics) }

  /** An attempt that measures it publishes it without complaint, and every later attempt that gets to it fails. */
  lemma OversizedStopsResume(e: Setting, a: Attempt, b: Attempt)
    requires Usable(e) && Ready(e, a) && Ready(e, b) && e.configurations != [] && a.stop > 0 && b.stop > 0
    requires a.measured[0] == Oversized(e.configurations[0])
    ensures 0 in FilesAfter([a], e)
    ensures Continue(Begin(FilesAfter([a], e)), e, b).outcome == Failed(SizeInvalid)
  {
    hide Body, EncodedSize, Continue;
    var p := Begin(map[]);
    var r := a.measured[0];
    assert |r.reason| == 3958;
    RoundTripExactly(0, r, e.identity, e.digest);
    var bytes := Serialize(0, r, e.identity, e.digest).value;
    assert |bytes| == 4097 by { OversizedSize(r); }
    var q := Turn(p, e, a);
    assert q.outcome == Complete && 0 in q.files && q.files[0] == bytes;
    assert [a][..0] == [];
    Unfold(p, e, a);
    PublishedIsFinal(q, e, a, 0);
    var files := FilesAfter([a], e);
    assert FilesAfter([a][..0], e) == map[];
    assert files == Continue(p, e, a).files && files[0] == bytes;
    assert Parse(bytes, 0, e.configurations[0], e.identity, e.digest) == Err(SizeInvalid);
    assert Turn(Begin(files), e, b).outcome == Failed(SizeInvalid);
    Unfold(Begin(files), e, b);
  }

  lemma OversizedSize(r: CandidateResult)
    requires !r.passed && |r.reason| == 3958
    ensures EncodedSize(r) == 4097
  {}

  lemma Unfold(p: Progress, e: Setting, a: Attempt)
    requires Ready(e, a) && p.outcome == Complete && |p.results| < |e.configurations|
    ensures Continue(p, e, a) == var q := Turn(p, e, a); if q.outcome != Complete then q else Continue(q, e, a)
  {}
}
