/** What a crash leaves, told from the operations alone. */
module RecordingOutcomes {
  import opened Common
  import opened CrashModel

  predicate SyncsDirectory(op: Operation) {
    op == SyncPreparedDirectory || op == SyncPublicationDirectory || op == SyncMarkerDirectory
    || op == SyncCleanupDirectory
  }

  predicate WritesJournal(op: Operation) { op == WriteJournalHeader || op == WriteJournalGroup }
  predicate SyncsJournal(op: Operation) { op == SyncJournalHeader || op == SyncJournalGroup }

  // Some operation satisfies p; some operation that satisfies q comes after one that satisfies p.
  predicate Occurs(ops: seq<Operation>, p: Operation -> bool)
    decreases |ops|
  {
    ops != [] && (Occurs(ops[..|ops| - 1], p) || p(ops[|ops| - 1]))
  }

  predicate Follows(ops: seq<Operation>, p: Operation -> bool, q: Operation -> bool)
    decreases |ops|
  {
    ops != [] && (Follows(ops[..|ops| - 1], p, q) || (Occurs(ops[..|ops| - 1], p) && q(ops[|ops| - 1])))
  }

  lemma {:induction false} OccursMeans(ops: seq<Operation>, p: Operation -> bool)
    ensures Occurs(ops, p) <==> exists i :: 0 <= i < |ops| && p(ops[i])
    decreases |ops|
  {
    if ops != [] {
      var front, n := ops[..|ops| - 1], |ops| - 1;
      OccursMeans(front, p);
      if Occurs(front, p) {
        var i :| 0 <= i < n && p(front[i]);
        assert p(ops[i]);
      }
    }
  }

  /** One operation follows another exactly when they stand in that order. */
  lemma {:induction false} FollowsMeans(ops: seq<Operation>, p: Operation -> bool, q: Operation -> bool)
    ensures Follows(ops, p, q) <==> exists i, j :: 0 <= i < j < |ops| && p(ops[i]) && q(ops[j])
    decreases |ops|
  {
    if ops != [] {
      var front, n := ops[..|ops| - 1], |ops| - 1;
      FollowsMeans(front, p, q);
      OccursMeans(front, p);
      if Follows(front, p, q) {
        var i, j :| 0 <= i < j < n && p(front[i]) && q(front[j]);
        assert p(ops[i]) && q(ops[j]);
      }
      if Occurs(front, p) && q(ops[n]) {
        var i :| 0 <= i < n && p(front[i]);
        assert p(ops[i]);
      }
      if i, j :| 0 <= i < j < |ops| && p(ops[i]) && q(ops[j]) {
        assert p(front[i]);
        assert j < n ==> q(front[j]);
      }
    }
  }

  const Renames: Operation -> bool := op => op == RenameMarker
  const Creates: Operation -> bool := op => op == CreateJournal
  const DirectorySync: Operation -> bool := op => SyncsDirectory(op)
  const JournalWrite: Operation -> bool := op => WritesJournal(op)
  const JournalSync: Operation -> bool := op => SyncsJournal(op)

  // No other name leads to the journal's file, and the next file is new.
  ghost predicate Apart(s: State) {
    && Filed(s) && (forall i :: i in s.files ==> i < s.nextInode)
    && (Journal in s.live ==> forall n :: n in s.live && n != Journal ==> s.live[n] != s.live[Journal])
  }

  // What the operations so far amount to: the marker renamed, and anchored by a directory sync; the journal created,
  // and
  // anchored; the journal written, and synced.
  datatype Signs = Signs(renamed: bool, marked: bool, created: bool, anchored: bool, written: bool, synced: bool)

  function SignsOf(ops: seq<Operation>): Signs {
    Signs(Occurs(ops, Renames), Follows(ops, Renames, DirectorySync), Occurs(ops, Creates),
          Follows(ops, Creates, DirectorySync), Occurs(ops, JournalWrite), Follows(ops, JournalWrite, JournalSync))
  }

  function Next(g: Signs, op: Operation): Signs {
    Signs(g.renamed || op == RenameMarker, g.marked || (g.renamed && SyncsDirectory(op)), g.created
          || op == CreateJournal,
          g.anchored || (g.created && SyncsDirectory(op)), g.written || WritesJournal(op),
          g.synced || (g.written && SyncsJournal(op)))
  }

  lemma SignsSnoc(ops: seq<Operation>)
    requires ops != []
    ensures SignsOf(ops) == Next(SignsOf(ops[..|ops| - 1]), ops[|ops| - 1])
  {}

  // A state with these signs: the names, and the versions of the journal.
  ghost predicate Shows(s: State, g: Signs) {
    && Apart(s) && (MarkerFinal in s.live <==> g.renamed) && (MarkerFinal in s.durable <==> g.marked)
    && (g.marked ==> g.renamed)
    && (!g.marked ==>
          && (Journal in s.live <==> g.created) && (Journal in s.durable <==> g.anchored)
          && (g.anchored ==> g.created && s.durable[Journal] == s.live[Journal])
          && (g.written ==> g.created) && (g.synced ==> g.written)
          && (g.created ==> VersionsShow(s.files[s.live[Journal]], g.written, g.synced)))
  }

  predicate VersionsShow(f: FileState, written: bool, synced: bool) {
    (f.live > 0 <==> written) && (f.durable > 0 <==> synced) && f.durable <= f.live
  }

  lemma CreateShows(s: State, n: Name, g: Signs)
    requires Shows(s, g) && Create(s, n).Ok? && n != MarkerFinal
    ensures Shows(Create(s, n).value, g.(created := g.created || n == Journal))
  {}

  lemma FileShows(s: State, n: Name, g: Signs)
    requires Shows(s, g)
    ensures Write(s, n).Ok? ==> Shows(Write(s, n).value, g.(written := g.written || n == Journal))
    ensures SyncFile(s, n).Ok? ==> Shows(SyncFile(s, n).value, g.(synced := g.synced || (g.written && n == Journal)))
  {}

  lemma DirectoryShows(s: State, g: Signs)
    requires Shows(s, g)
    ensures Shows(SyncDirectory(s), g.(marked := g.marked || g.renamed, anchored := g.anchored || g.created))
  {}

  lemma RenameShows(s: State, source: Name, destination: Name, g: Signs)
    requires Shows(s, g) && Rename(s, source, destination).Ok?
    requires source != Journal && destination != Journal && source != MarkerFinal
    ensures Shows(Rename(s, source, destination).value, g.(renamed := g.renamed || destination == MarkerFinal))
  {}

  lemma RemoveShows(s: State, g: Signs)
    requires Shows(s, g) && Remove(s, Journal).Ok? && MarkerFinal in s.durable
    ensures Shows(Remove(s, Journal).value, g)
  {}

  lemma SameShows(s: State, t: State, g: Signs)
    requires Shows(s, g)
    requires t.live == s.live && t.durable == s.durable && t.files == s.files && t.nextInode == s.nextInode
    ensures Shows(t, g)
  {}

  predicate WritesOrSyncsFile(op: Operation) {
    || WritesJournal(op) || SyncsJournal(op)
    || op in {SyncMediaTemporary, WriteMediaAccessUnit, SyncMediaGroup, SyncMarkerTemporary, WriteMarker, SyncMarker,
              SyncSidecarTemporary, WriteSidecarGroup, SyncSidecarGroup, WriteSidecarSuffix, SyncSidecar}
  }

  lemma JournalOperationShows(s: State, op: Operation, g: Signs)
    requires Shows(s, g) && Filed(s) && Step(s, op).Ok? && (WritesJournal(op) || SyncsJournal(op))
    ensures Shows(Step(s, op).value, Next(g, op))
  {
    hide Shows, Write, SyncFile, Apart;
    FileShows(s, Journal, g);
    var t := Step(s, op).value;
    if op == WriteJournalGroup {
      SameShows(Write(s, Journal).value, t, g.(written := true));
    } else if op == SyncJournalGroup {
      SameShows(SyncFile(s, Journal).value, t, g.(synced := g.synced || g.written));
    }
  }

  lemma FileOperationShows(s: State, op: Operation, g: Signs)
    requires Shows(s, g) && Filed(s) && Step(s, op).Ok?
    requires WritesOrSyncsFile(op) && !WritesJournal(op) && !SyncsJournal(op)
    ensures Shows(Step(s, op).value, g)
  {
    hide Shows, Write, SyncFile, Apart;
    FileShows(s, MediaTemporary, g);
    FileShows(s, SidecarTemporary, g);
    FileShows(s, MarkerTemporary, g);
    var t := Step(s, op).value;
    if op == WriteMediaAccessUnit {
      SameShows(Write(s, MediaTemporary).value, t, g);
    } else if op == SyncMediaGroup {
      SameShows(SyncFile(s, MediaTemporary).value, t, g);
    }
  }

  lemma NameOperationShows(s: State, op: Operation, g: Signs)
    requires Shows(s, g) && Filed(s) && Step(s, op).Ok? && !WritesOrSyncsFile(op)
    ensures Shows(Step(s, op).value, Next(g, op))
  {
    hide Shows, Create, SyncDirectory, Rename, Remove, Apart;
    match op
    case CreateJournal => CreateShows(s, Journal, g);
    case CreateMediaTemporary => CreateShows(s, MediaTemporary, g);
    case CreateSidecarTemporary => CreateShows(s, SidecarTemporary, g);
    case CreateMarkerTemporary => CreateShows(s, MarkerTemporary, g);
    case AdmitMedia => SameShows(s, Step(s, op).value, g);
    case _ =>
      if SyncsDirectory(op) { DirectoryShows(s, g); } else { MoveShows(s, op, g); }
  }

  lemma MoveShows(s: State, op: Operation, g: Signs)
    requires Shows(s, g) && Filed(s) && Step(s, op).Ok?
    requires op in {RenameMedia, RenameSidecar, RenameMarker, RemoveJournal}
    ensures Shows(Step(s, op).value, Next(g, op))
  {
    hide Shows, Rename, Remove, Apart;
    match op
    case RenameMedia => RenameShows(s, MediaTemporary, MediaFinal, g);
    case RenameSidecar => RenameShows(s, SidecarTemporary, SidecarFinal, g);
    case RenameMarker => RenameShows(s, MarkerTemporary, MarkerFinal, g);
    case RemoveJournal => RemoveShows(s, g);
  }

  lemma StepShows(s: State, op: Operation, g: Signs)
    requires Shows(s, g) && Step(s, op).Ok?
    ensures Shows(Step(s, op).value, Next(g, op))
  {
    hide Shows, Step, Apart;
    assert Filed(s) by { ShowsFiled(s, g); }
    if !WritesOrSyncsFile(op) {
      NameOperationShows(s, op, g);
    } else if WritesJournal(op) || SyncsJournal(op) {
      JournalOperationShows(s, op, g);
    } else {
      FileOperationShows(s, op, g);
      assert Next(g, op) == g;
    }
  }

  lemma ShowsFiled(s: State, g: Signs)
    requires Shows(s, g)
    ensures Filed(s)
  {}

  lemma {:induction false} ExecuteShows(ops: seq<Operation>)
    requires Execute(ops).Ok?
    ensures Shows(Execute(ops).value, SignsOf(ops))
    decreases |ops|
  {
    hide Shows, Step, SignsOf;
    if ops == [] {
      assert Shows(Initial, SignsOf([])) by { InitialShows(); }
    } else {
      var front, op := ops[..|ops| - 1], ops[|ops| - 1];
      ExecuteShows(front);
      StepShows(Execute(front).value, op, SignsOf(front));
      SignsSnoc(ops);
    }
  }

  lemma InitialShows()
    ensures Shows(Initial, SignsOf([]))
  {}

  lemma OutcomeBySigns(s: State, g: Signs)
    requires Shows(s, g) && CrashOutcome(s).Ok?
    ensures CrashOutcome(s).value ==
            if g.marked then Complete else if !g.anchored then Absent else if !g.synced then PreparedHeaderIncomplete
            else if s.durableJournal == 0 then PreparedIncomplete else Incomplete
  {}

  /** What a crash would leave, told from the operations alone, of any order and length: COMPLETE exactly if the
      directory was synced after the marker's rename; else nothing exactly if it was not synced after the journal's
      creation; else a
      prepared recording without a header exactly if the journal was not synced after being written; else a prepared one
      exactly
      while no access unit is committed. */
  lemma OutcomeExactly(ops: seq<Operation>)
    requires Execute(ops).Ok? && CrashOutcome(Execute(ops).value).Ok?
    ensures CrashOutcome(Execute(ops).value).value ==
            if Follows(ops, Renames, DirectorySync) then Complete
            else if !Follows(ops, Creates, DirectorySync) then Absent
            else if !Follows(ops, JournalWrite, JournalSync) then PreparedHeaderIncomplete
            else if Committed(ops) == 0 then PreparedIncomplete
            else Incomplete
  {
    hide Step, Execute, Occurs, Follows, Committed, Shows, CrashOutcome;
    ExecuteShows(ops);
    CountsExactly(ops);
    OutcomeBySigns(Execute(ops).value, SignsOf(ops));
  }
}
