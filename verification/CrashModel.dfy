/** The recording crash model: live and durable names, file versions, and what a crash after each operation leaves. */
module CrashModel {
  import opened Common

  datatype Name = Journal | MediaTemporary | SidecarTemporary | MarkerTemporary | MediaFinal | SidecarFinal
      | MarkerFinal

  datatype Operation =
    | CreateJournal | CreateMediaTemporary | CreateSidecarTemporary | CreateMarkerTemporary
    | WriteJournalHeader | SyncJournalHeader | SyncMediaTemporary | SyncSidecarTemporary | SyncMarkerTemporary
    | SyncPreparedDirectory | AdmitMedia | WriteMediaAccessUnit | SyncMediaGroup | WriteJournalGroup | SyncJournalGroup
    | WriteSidecarGroup | SyncSidecarGroup | WriteSidecarSuffix | SyncSidecar | RenameMedia | RenameSidecar
    | SyncPublicationDirectory | WriteMarker | SyncMarker | RenameMarker | SyncMarkerDirectory | RemoveJournal
    | SyncCleanupDirectory
  {
    // The name a creating operation creates.
    function Target(): Name {
      match this
      case CreateMediaTemporary => MediaTemporary
      case CreateSidecarTemporary => SidecarTemporary
      case CreateMarkerTemporary => MarkerTemporary
      case _ => Journal
    }
  }

  datatype Failure =
    // raised by the guard of an operation
    | NameReused | WriteMissing(name: Name) | SyncMissing(name: Name) | RenameBroken | RemoveMissing(name: Name)
    | PreparedDirectoryMissingCompanion | AdmittedBeforeBarrier | WriteBeforeAdmission | CommitPrecedesMedia
    | MarkerRenamePrecedesPublication | JournalRemovedBeforeMarker
    // raised by looking at what a crash would leave
    | MarkerPrecedesCompanions | MarkerNotDurable | MediaNotDurable | SidecarNotDurable
    | JournalPrecedesMedia | AdmittedWithoutAnchor

  type Result<T> = Fallible<T, Failure>

  datatype Outcome = Absent | PreparedHeaderIncomplete | PreparedIncomplete | Incomplete | Complete {
    function Rank(): nat {
      match this
      case Absent => 0
      case PreparedHeaderIncomplete => 1
      case PreparedIncomplete => 2
      case Incomplete => 3
      case Complete => 4
    }
  }

  datatype FileState = FileState(live: nat, durable: nat)

  datatype State = State(
    live: map<Name, nat>,
    durable: map<Name, nat>,
    files: map<nat, FileState>,
    nextInode: nat,
    admitted: bool,
    pending: nat,
    durableMedia: nat,
    liveJournal: nat,
    durableJournal: nat)

  datatype Cut = Cut(operation: Operation, outcome: Outcome, admitted: bool, media: nat, journal: nat)

  const Initial := State(map[], map[], map[], 1, false, 0, 0, 0, 0)

  const Prepared: set<Name> := {Journal, MediaTemporary, SidecarTemporary, MarkerTemporary}

  // Every name leads to a file.
  predicate Filed(s: State) {
    && (forall n :: n in s.live ==> s.live[n] in s.files)
    && (forall n :: n in s.durable ==> s.durable[n] in s.files)
  }

  function DurableVersion(s: State, n: Name): nat
    requires Filed(s) && n in s.durable
  {
    s.files[s.durable[n]].durable
  }

  // -------- the file operations --------

  function Create(s: State, n: Name): Result<State> {
    if n in s.live then Err(NameReused)
    else Ok(s.(live := s.live[n := s.nextInode], files := s.files[s.nextInode := FileState(0, 0)],
               nextInode := s.nextInode + 1))
  }

  function Write(s: State, n: Name): Result<State>
    requires Filed(s)
  {
    if n !in s.live then Err(WriteMissing(n))
    else
      var f := s.files[s.live[n]];
      Ok(s.(files := s.files[s.live[n] := f.(live := f.live + 1)]))
  }

  function SyncFile(s: State, n: Name): Result<State>
    requires Filed(s)
  {
    if n !in s.live then Err(SyncMissing(n))
    else
      var f := s.files[s.live[n]];
      Ok(s.(files := s.files[s.live[n] := f.(durable := f.live)]))
  }

  function SyncDirectory(s: State): State { s.(durable := s.live) }

  function Rename(s: State, source: Name, destination: Name): Result<State> {
    if source !in s.live || destination in s.live then Err(RenameBroken)
    else Ok(s.(live := (s.live - {source})[destination := s.live[source]]))
  }

  function Remove(s: State, n: Name): Result<State> {
    if n !in s.live then Err(RemoveMissing(n)) else Ok(s.(live := s.live - {n}))
  }

  // -------- the protocol --------

  function Step(s: State, op: Operation): Result<State>
    requires Filed(s)
  {
    match op
    case CreateJournal => Create(s, Journal)
    case CreateMediaTemporary => Create(s, MediaTemporary)
    case CreateSidecarTemporary => Create(s, SidecarTemporary)
    case CreateMarkerTemporary => Create(s, MarkerTemporary)
    case WriteJournalHeader => Write(s, Journal)
    case SyncJournalHeader => SyncFile(s, Journal)
    case SyncMediaTemporary => SyncFile(s, MediaTemporary)
    case SyncSidecarTemporary => SyncFile(s, SidecarTemporary)
    case SyncMarkerTemporary => SyncFile(s, MarkerTemporary)
    case SyncPreparedDirectory =>
      if !(Prepared <= s.live.Keys) then Err(PreparedDirectoryMissingCompanion) else Ok(SyncDirectory(s))
    case AdmitMedia =>
      if !(Prepared <= s.durable.Keys) || DurableVersion(s, Journal) == 0 then Err(AdmittedBeforeBarrier)
      else Ok(s.(admitted := true))
    case WriteMediaAccessUnit =>
      if !s.admitted then Err(WriteBeforeAdmission)
      else
        var r := Write(s, MediaTemporary);
        if r.Err? then r else Ok(r.value.(pending := s.pending + 1))
    case SyncMediaGroup =>
      var r := SyncFile(s, MediaTemporary);
      if r.Err? then r else Ok(r.value.(durableMedia := s.pending))
    case WriteJournalGroup =>
      var r := Write(s, Journal);
      if r.Err? then r else Ok(r.value.(liveJournal := s.pending))
    case SyncJournalGroup =>
      if s.liveJournal > s.durableMedia then Err(CommitPrecedesMedia)
      else
        var r := SyncFile(s, Journal);
        if r.Err? then r else Ok(r.value.(durableJournal := s.liveJournal))
    case WriteSidecarGroup => Write(s, SidecarTemporary)
    case SyncSidecarGroup => SyncFile(s, SidecarTemporary)
    case WriteSidecarSuffix => Write(s, SidecarTemporary)
    case SyncSidecar => SyncFile(s, SidecarTemporary)
    case RenameMedia => Rename(s, MediaTemporary, MediaFinal)
    case RenameSidecar => Rename(s, SidecarTemporary, SidecarFinal)
    case SyncPublicationDirectory => Ok(SyncDirectory(s))
    case WriteMarker => Write(s, MarkerTemporary)
    case SyncMarker => SyncFile(s, MarkerTemporary)
    case RenameMarker =>
      if MediaFinal !in s.durable || SidecarFinal !in s.durable then Err(MarkerRenamePrecedesPublication)
      else Rename(s, MarkerTemporary, MarkerFinal)
    case SyncMarkerDirectory => Ok(SyncDirectory(s))
    case RemoveJournal => if MarkerFinal !in s.durable then Err(JournalRemovedBeforeMarker) else Remove(s, Journal)
    case SyncCleanupDirectory => Ok(SyncDirectory(s))
  }

  // What a crash now would leave to be found.
  function CrashOutcome(s: State): Result<Outcome>
    requires Filed(s)
  {
    if MarkerFinal in s.durable then
      if MediaFinal !in s.durable || SidecarFinal !in s.durable then Err(MarkerPrecedesCompanions)
      else if DurableVersion(s, MarkerFinal) == 0 then Err(MarkerNotDurable)
      else if DurableVersion(s, MediaFinal) == 0 then Err(MediaNotDurable)
      else if DurableVersion(s, SidecarFinal) == 0 then Err(SidecarNotDurable)
      else Ok(Complete)
    else if Journal in s.durable then
      if DurableVersion(s, Journal) == 0 then Ok(PreparedHeaderIncomplete)
      else if s.durableJournal > s.durableMedia then Err(JournalPrecedesMedia)
      else if s.durableJournal == 0 then Ok(PreparedIncomplete)
      else Ok(Incomplete)
    else if s.admitted then Err(AdmittedWithoutAnchor)
    else Ok(Absent)
  }

  lemma StepFiled(s: State, op: Operation)
    requires Filed(s)
    ensures Step(s, op).Ok? ==> Filed(Step(s, op).value)
  {}

  // -------- running operations of any order and length --------

  // The state after `ops`, if every guard admits them.
  function Execute(ops: seq<Operation>): (r: Result<State>)
    ensures r.Ok? ==> Filed(r.value)
  {
    if ops == [] then Ok(Initial)
    else
      var before := Execute(ops[..|ops| - 1]);
      if before.Err? then before
      else
        StepFiled(before.value, ops[|ops| - 1]);
        Step(before.value, ops[|ops| - 1])
  }

  const Published: set<Name> := {MediaFinal, SidecarFinal, MarkerFinal}

  // Names and versions after any operations the guards admit.
  ghost predicate Namely(s: State) {
    && Filed(s)
    && (MarkerFinal in s.live ==> MediaFinal in s.live && SidecarFinal in s.live)
    && (MarkerFinal in s.durable ==> MediaFinal in s.durable && SidecarFinal in s.durable)
    // published names stay, at the same file
    && (forall n :: n in Published && n in s.durable ==> n in s.live && s.live[n] == s.durable[n])
    // the journal leaves only behind a durable marker
    && (Journal in s.durable && MarkerFinal !in s.durable ==>
          Journal in s.live && s.live[Journal] == s.durable[Journal])
    && (s.admitted && MarkerFinal !in s.durable ==> Journal in s.durable && DurableVersion(s, Journal) > 0)
    && (forall i :: i in s.files ==> s.files[i].durable <= s.files[i].live && i < s.nextInode)
  }

  // Access-unit counts after any operations the guards admit.
  ghost predicate Counted(s: State) {
    && s.durableJournal <= s.durableMedia <= s.pending
    && s.durableJournal <= s.liveJournal <= s.pending
    && (s.pending > 0 ==> s.admitted)
  }

  ghost predicate Invariant(s: State) { Namely(s) && Counted(s) }

  lemma CreateNamely(s: State, n: Name)
    requires Namely(s) && n !in Published
    ensures Create(s, n).Ok? ==> Namely(Create(s, n).value)
  {}

  lemma FileNamely(s: State, n: Name)
    requires Namely(s)
    ensures Write(s, n).Ok? ==> Namely(Write(s, n).value)
    ensures SyncFile(s, n).Ok? ==> Namely(SyncFile(s, n).value)
  {}

  lemma DirectoryNamely(s: State)
    requires Namely(s)
    ensures Namely(SyncDirectory(s))
  {}

  lemma RenameNamely(s: State, source: Name, destination: Name)
    requires Namely(s) && source !in Published && source != Journal && destination in Published
    requires destination == MarkerFinal ==> MediaFinal in s.durable && SidecarFinal in s.durable
    ensures Rename(s, source, destination).Ok? ==> Namely(Rename(s, source, destination).value)
  {}

  lemma RemoveNamely(s: State)
    requires Namely(s) && MarkerFinal in s.durable
    ensures Remove(s, Journal).Ok? ==> Namely(Remove(s, Journal).value)
  {}

  // Names do not depend on the counts, nor on an admission behind the prepared barrier.
  lemma CountsNamely(s: State, t: State)
    requires Namely(s)
    requires t == s.(admitted := t.admitted, pending := t.pending, durableMedia := t.durableMedia,
                     liveJournal := t.liveJournal, durableJournal := t.durableJournal)
    requires t.admitted && !s.admitted ==> Journal in s.durable && DurableVersion(s, Journal) > 0
    ensures Namely(t)
  {}

  lemma StepNamely(s: State, op: Operation)
    requires Filed(s) && Namely(s)
    ensures Step(s, op).Ok? ==> Namely(Step(s, op).value)
  {
    hide Namely, Create, Write, SyncFile, SyncDirectory, Rename, Remove;
    FileNamely(s, Journal);
    FileNamely(s, MediaTemporary);
    FileNamely(s, SidecarTemporary);
    FileNamely(s, MarkerTemporary);
    if Step(s, op).Ok? {
      var t := Step(s, op).value;
      match op
      case CreateJournal => CreateNamely(s, Journal);
      case CreateMediaTemporary => CreateNamely(s, MediaTemporary);
      case CreateSidecarTemporary => CreateNamely(s, SidecarTemporary);
      case CreateMarkerTemporary => CreateNamely(s, MarkerTemporary);
      case SyncPreparedDirectory => DirectoryNamely(s);
      case SyncPublicationDirectory => DirectoryNamely(s);
      case SyncMarkerDirectory => DirectoryNamely(s);
      case SyncCleanupDirectory => DirectoryNamely(s);
      case RenameMedia => RenameNamely(s, MediaTemporary, MediaFinal);
      case RenameSidecar => RenameNamely(s, SidecarTemporary, SidecarFinal);
      case RenameMarker => RenameNamely(s, MarkerTemporary, MarkerFinal);
      case RemoveJournal => RemoveNamely(s);
      case AdmitMedia => CountsNamely(s, t);
      case WriteMediaAccessUnit => CountsNamely(Write(s, MediaTemporary).value,
                                                t) by { WriteAdmits(s, MediaTemporary); }
      case SyncMediaGroup => CountsNamely(SyncFile(s, MediaTemporary).value, t) by { WriteAdmits(s, MediaTemporary); }
      case WriteJournalGroup => CountsNamely(Write(s, Journal).value, t) by { WriteAdmits(s, Journal); }
      case SyncJournalGroup => CountsNamely(SyncFile(s, Journal).value, t) by { WriteAdmits(s, Journal); }
      case _ =>
    }
  }

  lemma WriteAdmits(s: State, n: Name)
    requires Filed(s)
    ensures Write(s, n).Ok? ==> Write(s, n).value.admitted == s.admitted
    ensures SyncFile(s, n).Ok? ==> SyncFile(s, n).value.admitted == s.admitted
  {}

  lemma StepCounted(s: State, op: Operation)
    requires Invariant(s)
    ensures Step(s, op).Ok? ==> Counted(Step(s, op).value)
  {
    hide Namely;
  }

  lemma StepInvariant(s: State, op: Operation)
    requires Invariant(s)
    ensures Step(s, op).Ok? ==> Invariant(Step(s, op).value)
  {
    StepNamely(s, op);
    StepCounted(s, op);
  }

  lemma {:induction false} ExecuteInvariant(ops: seq<Operation>)
    ensures Execute(ops).Ok? ==> Invariant(Execute(ops).value)
  {
    if ops != [] {
      ExecuteInvariant(ops[..|ops| - 1]);
      var before := Execute(ops[..|ops| - 1]);
      if before.Ok? {
        StepInvariant(before.value, ops[|ops| - 1]);
      }
    }
  }

  /** Whatever the order of operations, if the guards admit them the ordering checks of the crash view cannot fail. */
  lemma OrderingChecksNeverFire(ops: seq<Operation>)
    requires Execute(ops).Ok?
    ensures CrashOutcome(Execute(ops).value) != Err(MarkerPrecedesCompanions)
    ensures CrashOutcome(Execute(ops).value) != Err(JournalPrecedesMedia)
    ensures CrashOutcome(Execute(ops).value) != Err(AdmittedWithoutAnchor)
  {
    ExecuteInvariant(ops);
  }

  // Durable versions and published names only grow.
  ghost predicate Grows(s: State, t: State)
    requires Filed(s) && Filed(t)
  {
    && (forall i :: i in s.files ==> i in t.files && s.files[i].durable <= t.files[i].durable)
    && (MarkerFinal in s.durable ==> MarkerFinal in t.durable)
    && (forall n :: n in Published && n in s.durable ==> n in t.durable && t.durable[n] == s.durable[n])
    && (MarkerFinal !in t.durable && Journal in s.durable ==>
          Journal in t.durable && t.durable[Journal] == s.durable[Journal])
    && s.durableJournal <= t.durableJournal
    && s.durableMedia <= t.durableMedia
  }

  lemma StepFiles(s: State, op: Operation)
    requires Namely(s) && Step(s, op).Ok?
    ensures forall i :: i in s.files ==>
              i in Step(s, op).value.files && s.files[i].durable <= Step(s, op).value.files[i].durable
  {}

  // An operation leaves the durable names alone or makes them the live ones.
  lemma StepDurable(s: State, op: Operation)
    requires Filed(s) && Step(s, op).Ok?
    ensures Step(s, op).value.durable == s.durable || Step(s, op).value.durable == s.live
  {}

  lemma StepGrows(s: State, op: Operation)
    requires Invariant(s) && Step(s, op).Ok?
    ensures Filed(Step(s, op).value) && Grows(s, Step(s, op).value)
  {
    hide Step;
    StepFiled(s, op);
    StepFiles(s, op);
    StepDurable(s, op);
    StepCounts(s, op);
  }

  lemma {:induction false} ExecuteGrows(ops: seq<Operation>, i: nat)
    requires i <= |ops| && Execute(ops).Ok?
    ensures Execute(ops[..i]).Ok? && Grows(Execute(ops[..i]).value, Execute(ops).value)
    decreases |ops|
  {
    if i < |ops| {
      var shorter := ops[..|ops| - 1];
      assert shorter[..i] == ops[..i];
      ExecuteGrows(shorter, i);
      ExecuteInvariant(shorter);
      StepGrows(Execute(shorter).value, ops[|ops| - 1]);
    } else {
      assert ops[..i] == ops;
    }
  }

  lemma GrowsRank(s: State, t: State)
    requires Invariant(s) && Invariant(t) && Grows(s, t) && CrashOutcome(s).Ok?
    ensures CrashOutcome(t).Ok? ==> CrashOutcome(s).value.Rank() <= CrashOutcome(t).value.Rank()
    ensures CrashOutcome(s).value == Complete ==> CrashOutcome(t) == Ok(Complete)
  {}

  /** For operations of any order and length: between two cuts the crash outcome never regresses and the recoverable
      counts never shrink, and once a cut is COMPLETE every later cut whose guards pass is COMPLETE, never an error. */
  lemma NeverRegresses(ops: seq<Operation>, i: nat)
    requires i <= |ops| && Execute(ops).Ok? && Execute(ops[..i]).Ok? && CrashOutcome(Execute(ops[..i]).value).Ok?
    ensures var s, t := Execute(ops[..i]).value, Execute(ops).value;
            && (CrashOutcome(t).Ok? ==> CrashOutcome(s).value.Rank() <= CrashOutcome(t).value.Rank())
            && (CrashOutcome(s).value == Complete ==> CrashOutcome(t) == Ok(Complete))
            && s.durableJournal <= t.durableJournal <= t.durableMedia
  {
    hide Execute;
    ExecuteInvariant(ops);
    ExecuteInvariant(ops[..i]);
    ExecuteGrows(ops, i);
    GrowsRank(Execute(ops[..i]).value, Execute(ops).value);
  }

  // -------- what the counts are --------

  // Access units written by `ops`; those before the last media sync; those before the last journal write; those
  // covered by the last journal write before the last journal sync.
  function Written(ops: seq<Operation>): nat {
    if ops == [] then 0 else Written(ops[..|ops| - 1]) + (if ops[|ops| - 1] == WriteMediaAccessUnit then 1 else 0)
  }

  function Synced(ops: seq<Operation>): nat {
    if ops == [] then 0
    else if ops[|ops| - 1] == SyncMediaGroup then Written(ops)
    else Synced(ops[..|ops| - 1])
  }

  function Journaled(ops: seq<Operation>): nat {
    if ops == [] then 0
    else if ops[|ops| - 1] == WriteJournalGroup then Written(ops)
    else Journaled(ops[..|ops| - 1])
  }

  function Committed(ops: seq<Operation>): nat {
    if ops == [] then 0
    else if ops[|ops| - 1] == SyncJournalGroup then Journaled(ops)
    else Committed(ops[..|ops| - 1])
  }

  lemma StepCounts(s: State, op: Operation)
    requires Filed(s) && Step(s, op).Ok?
    ensures var t := Step(s, op).value;
            && t.pending == s.pending + (if op == WriteMediaAccessUnit then 1 else 0)
            && t.durableMedia == (if op == SyncMediaGroup then s.pending else s.durableMedia)
            && t.liveJournal == (if op == WriteJournalGroup then s.pending else s.liveJournal)
            && t.durableJournal == (if op == SyncJournalGroup then s.liveJournal else s.durableJournal)
  {}

  /** The counters mean what the operation list says. */
  lemma {:induction false} CountsExactly(ops: seq<Operation>)
    requires Execute(ops).Ok?
    ensures var s := Execute(ops).value;
            && s.pending == Written(ops) && s.durableMedia == Synced(ops)
            && s.liveJournal == Journaled(ops) && s.durableJournal == Committed(ops)
  {
    hide Step;
    if ops != [] {
      CountsExactly(ops[..|ops| - 1]);
      StepCounts(Execute(ops[..|ops| - 1]).value, ops[|ops| - 1]);
    }
  }

  // -------- the verifier of operation lists --------

  // The cuts of `ops` from state `s`, or the first failure of a guard or of a crash check.
  function Cuts(s: State, ops: seq<Operation>): Result<seq<Cut>>
    requires Filed(s)
    decreases ops
  {
    if ops == [] then Ok([])
    else
      var next := Step(s, ops[0]);
      if next.Err? then Err(next.failure)
      else
        StepFiled(s, ops[0]);
        var t := next.value;
        var outcome := CrashOutcome(t);
        if outcome.Err? then Err(outcome.failure)
        else
          var rest := Cuts(t, ops[1..]);
          if rest.Err? then rest
          else Ok([Cut(ops[0], outcome.value, t.admitted, t.durableMedia, t.durableJournal)] + rest.value)
  }

  // The state after `ops`, when nothing fails.
  function Replay(s: State, ops: seq<Operation>): (r: Result<State>)
    requires Filed(s)
    ensures r.Ok? ==> Filed(r.value)
    decreases ops
  {
    if ops == [] then Ok(s)
    else
      var next := Step(s, ops[0]);
      if next.Err? then next
      else
        StepFiled(s, ops[0]);
        if CrashOutcome(next.value).Err? then Err(CrashOutcome(next.value).failure)
        else Replay(next.value, ops[1..])
  }

  lemma {:induction false} ReplayAppend(s: State, xs: seq<Operation>, ys: seq<Operation>)
    requires Filed(s)
    ensures Replay(s, xs + ys) == if Replay(s, xs).Err? then Replay(s, xs) else Replay(Replay(s, xs).value, ys)
    decreases xs
  {
    hide Step, CrashOutcome;
    if xs == [] {
      assert xs + ys == ys;
    } else {
      assert (xs + ys)[1..] == xs[1..] + ys;
      StepFiled(s, xs[0]);
      if Step(s, xs[0]).Ok? {
        ReplayAppend(Step(s, xs[0]).value, xs[1..], ys);
      }
    }
  }

  // A replay that succeeds from the start is an execution, and all its prefixes crash cleanly.
  lemma {:induction false} ReplayExecutes(ops: seq<Operation>)
    requires Replay(Initial, ops).Ok?
    ensures Execute(ops) == Replay(Initial, ops)
    ensures ops != [] ==> CrashOutcome(Execute(ops).value).Ok?
  {
    hide Step, CrashOutcome;
    if ops != [] {
      var shorter, last := ops[..|ops| - 1], ops[|ops| - 1];
      assert ops == shorter + [last];
      ReplayAppend(Initial, shorter, [last]);
      ReplayExecutes(shorter);
      assert [last][1..] == [];
    }
  }

  lemma {:induction false} CutsReplay(s: State, ops: seq<Operation>)
    requires Filed(s)
    ensures Cuts(s, ops).Ok? <==> Replay(s, ops).Ok?
    ensures Cuts(s, ops).Ok? ==> |Cuts(s, ops).value| == |ops|
    decreases ops
  {
    hide Step, CrashOutcome;
    if ops != [] && Step(s, ops[0]).Ok? {
      StepFiled(s, ops[0]);
      CutsReplay(Step(s, ops[0]).value, ops[1..]);
    }
  }

  lemma {:induction false} CutAt(s: State, ops: seq<Operation>, i: nat)
    requires Filed(s) && Cuts(s, ops).Ok? && i < |ops| && |Cuts(s, ops).value| == |ops|
    ensures Replay(s, ops[..i + 1]).Ok?
    ensures var t := Replay(s, ops[..i + 1]).value;
            && CrashOutcome(t).Ok?
            && Cuts(s, ops).value[i] == Cut(ops[i], CrashOutcome(t).value, t.admitted, t.durableMedia, t.durableJournal)
    decreases i
  {
    hide Step, CrashOutcome;
    StepFiled(s, ops[0]);
    var t := Step(s, ops[0]).value;
    assert ops[..i + 1][0] == ops[0];
    if i == 0 {
      assert ops[..1][1..] == [];
      assert Replay(t, []) == Ok(t);
    } else {
      CutAt(t, ops[1..], i - 1);
      assert ops[..i + 1][1..] == ops[1..][..(i - 1) + 1];
    }
  }

  /** Whatever operations the verifier accepts, its cuts never regress: outcome rank and journal count are
      nondecreasing, and the journal count never passes the media count. */
  lemma CutsNeverRegress(ops: seq<Operation>, i: nat, j: nat)
    requires Cuts(Initial, ops).Ok? && i <= j < |ops|
    ensures |Cuts(Initial, ops).value| == |ops|
    ensures var cuts := Cuts(Initial, ops).value;
            && cuts[i].outcome.Rank() <= cuts[j].outcome.Rank()
            && cuts[i].journal <= cuts[j].journal <= cuts[j].media
  {
    CutsReplay(Initial, ops);
    CutAt(Initial, ops, i);
    CutAt(Initial, ops, j);
    ReplayExecutes(ops[..j + 1]);
    ReplayExecutes(ops[..i + 1]);
    assert ops[..j + 1][..i + 1] == ops[..i + 1];
    NeverRegresses(ops[..j + 1], i + 1);
  }

  // What an operation reports.
  datatype Report = Fine | Failed(failure: Failure)

  class CrashState {
    var liveNames: map<Name, nat>
    var durableNames: map<Name, nat>
    var files: map<nat, FileState>
    var nextInode: nat
    var admitted: bool
    var pendingAccessUnits: nat
    var durableMediaAccessUnits: nat
    var liveJournalAccessUnits: nat
    var durableJournalAccessUnits: nat

    function Value(): (s: State)
      reads this
    {
      State(liveNames, durableNames, files, nextInode, admitted, pendingAccessUnits, durableMediaAccessUnits,
            liveJournalAccessUnits, durableJournalAccessUnits)
    }

    // The new state is what the specification says, or the old one with the failure it says.
    twostate predicate Does(r: Report, expected: Result<State>)
      reads this
    {
      match expected
      case Ok(t) => r == Fine && Value() == t
      case Err(f) => r == Failed(f) && Value() == old(Value())
    }

    constructor ()
      ensures Value() == Initial
    {
      liveNames, durableNames, files, nextInode, admitted := map[], map[], map[], 1, false;
      pendingAccessUnits, durableMediaAccessUnits, liveJournalAccessUnits, durableJournalAccessUnits := 0, 0, 0, 0;
    }

    method CreateName(n: Name) returns (r: Report)
      modifies this
      ensures Does(r, Create(old(Value()), n))
    {
      if n in liveNames {
        return Failed(NameReused);
      }
      liveNames := liveNames[n := nextInode];
      files := files[nextInode := FileState(0, 0)];
      nextInode := nextInode + 1;
      r := Fine;
    }

    method WriteName(n: Name) returns (r: Report)
      requires Filed(Value())
      modifies `files
      ensures Does(r, Write(old(Value()), n))
    {
      if n !in liveNames {
        return Failed(WriteMissing(n));
      }
      var inode := liveNames[n];
      files := files[inode := files[inode].(live := files[inode].live + 1)];
      r := Fine;
    }

    method SyncName(n: Name) returns (r: Report)
      requires Filed(Value())
      modifies `files
      ensures Does(r, SyncFile(old(Value()), n))
    {
      if n !in liveNames {
        return Failed(SyncMissing(n));
      }
      var inode := liveNames[n];
      files := files[inode := files[inode].(durable := files[inode].live)];
      r := Fine;
    }

    method SyncNames()
      modifies `durableNames
      ensures Value() == SyncDirectory(old(Value()))
    {
      durableNames := liveNames;
    }

    method RenameName(source: Name, destination: Name) returns (r: Report)
      modifies `liveNames
      ensures Does(r, Rename(old(Value()), source, destination))
    {
      if source !in liveNames || destination in liveNames {
        return Failed(RenameBroken);
      }
      var inode := liveNames[source];
      liveNames := liveNames - {source};
      liveNames := liveNames[destination := inode];
      r := Fine;
    }

    method RemoveName(n: Name) returns (r: Report)
      modifies `liveNames
      ensures Does(r, Remove(old(Value()), n))
    {
      if n !in liveNames {
        return Failed(RemoveMissing(n));
      }
      liveNames := liveNames - {n};
      r := Fine;
    }

    // One turn of the operation loop.
    method Apply(op: Operation) returns (r: Report)
      requires Filed(Value())
      modifies this
      ensures Does(r, Step(old(Value()), op))
    {
      hide Create, Write, SyncFile, SyncDirectory, Rename, Remove;
      r := Fine;
      match op
      case CreateJournal => r := CreateName(Journal);
      case CreateMediaTemporary => r := CreateName(MediaTemporary);
      case CreateSidecarTemporary => r := CreateName(SidecarTemporary);
      case CreateMarkerTemporary => r := CreateName(MarkerTemporary);
      case WriteJournalHeader => r := WriteName(Journal);
      case SyncJournalHeader => r := SyncName(Journal);
      case SyncMediaTemporary => r := SyncName(MediaTemporary);
      case SyncSidecarTemporary => r := SyncName(SidecarTemporary);
      case SyncMarkerTemporary => r := SyncName(MarkerTemporary);
      case SyncPreparedDirectory =>
        if !(Prepared <= liveNames.Keys) { return Failed(PreparedDirectoryMissingCompanion); }
        SyncNames();
      case AdmitMedia =>
        if !(Prepared <= durableNames.Keys) || files[durableNames[Journal]].durable == 0 {
          return Failed(AdmittedBeforeBarrier);
        }
        admitted := true;
      case WriteMediaAccessUnit =>
        if !admitted { return Failed(WriteBeforeAdmission); }
        r := WriteName(MediaTemporary);
        if r == Fine { pendingAccessUnits := pendingAccessUnits + 1; }
      case SyncMediaGroup =>
        r := SyncName(MediaTemporary);
        if r == Fine { durableMediaAccessUnits := pendingAccessUnits; }
      case WriteJournalGroup =>
        r := WriteName(Journal);
        if r == Fine { liveJournalAccessUnits := pendingAccessUnits; }
      case SyncJournalGroup =>
        if liveJournalAccessUnits > durableMediaAccessUnits { return Failed(CommitPrecedesMedia); }
        r := SyncName(Journal);
        if r == Fine { durableJournalAccessUnits := liveJournalAccessUnits; }
      case WriteSidecarGroup => r := WriteName(SidecarTemporary);
      case SyncSidecarGroup => r := SyncName(SidecarTemporary);
      case WriteSidecarSuffix => r := WriteName(SidecarTemporary);
      case SyncSidecar => r := SyncName(SidecarTemporary);
      case RenameMedia => r := RenameName(MediaTemporary, MediaFinal);
      case RenameSidecar => r := RenameName(SidecarTemporary, SidecarFinal);
      case SyncPublicationDirectory => SyncNames();
      case WriteMarker => r := WriteName(MarkerTemporary);
      case SyncMarker => r := SyncName(MarkerTemporary);
      case RenameMarker =>
        if MediaFinal !in durableNames || SidecarFinal !in durableNames {
          return Failed(MarkerRenamePrecedesPublication);
        }
        r := RenameName(MarkerTemporary, MarkerFinal);
      case SyncMarkerDirectory => SyncNames();
      case RemoveJournal =>
        if MarkerFinal !in durableNames { return Failed(JournalRemovedBeforeMarker); }
        r := RemoveName(Journal);
      case SyncCleanupDirectory => SyncNames();
    }
  }

  // Cuts already taken in front of the cuts still to come.
  function Joined(done: seq<Cut>, rest: Result<seq<Cut>>): Result<seq<Cut>> {
    if rest.Err? then rest else Ok(done + rest.value)
  }

  /** `verify_crash_protocol`: apply every operation and look at the crash it would leave. */
  method VerifyCrashProtocol(ops: seq<Operation>) returns (r: Result<seq<Cut>>)
    ensures r == Cuts(Initial, ops)
  {
    hide Step, CrashOutcome;
    var machine := new CrashState();
    var cuts: seq<Cut> := [];
    var i := 0;
    assert ops[0..] == ops;
    JoinedNothing(Cuts(Initial, ops));
    while i < |ops|
      invariant 0 <= i <= |ops|
      invariant Filed(machine.Value())
      invariant Cuts(Initial, ops) == Joined(cuts, Cuts(machine.Value(), ops[i..]))
    {
      assert ops[i..][0] == ops[i] && ops[i..][1..] == ops[i + 1..];
      ghost var before := machine.Value();
      StepFiled(before, ops[i]);
      var report := machine.Apply(ops[i]);
      if report.Failed? {
        return Err(report.failure);
      }
      var outcome := CrashOutcome(machine.Value());
      if outcome.Err? {
        return Err(outcome.failure);
      }
      var cut := Cut(ops[i], outcome.value, machine.admitted, machine.durableMediaAccessUnits,
                     machine.durableJournalAccessUnits);
      JoinedOne(cuts, cut, Cuts(machine.Value(), ops[i + 1..]));
      cuts := cuts + [cut];
      i := i + 1;
    }
    r := Ok(cuts);
    assert ops[i..] == [];
    assert cuts + [] == cuts;
  }

  lemma JoinedNothing(r: Result<seq<Cut>>)
    ensures Joined([], r) == r
  {
    if r.Ok? {
      assert [] + r.value == r.value;
    }
  }

  lemma JoinedOne(done: seq<Cut>, cut: Cut, rest: Result<seq<Cut>>)
    ensures Joined(done + [cut], rest) == Joined(done, if rest.Err? then rest else Ok([cut] + rest.value))
  {
    if rest.Ok? {
      assert done + [cut] + rest.value == done + ([cut] + rest.value);
    }
  }
}
