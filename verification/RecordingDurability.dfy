/** Exactly when a published recording is whole: each of its files written and synced before it was renamed. */
module RecordingDurability {
  import opened Common
  import opened CrashModel
  import opened RecordingOutcomes

  // The three files that are prepared under one name and published under another.
  datatype File = Media | Sidecar | Marker {
    function Temporary(): Name {
      if Media? then MediaTemporary else if Sidecar? then SidecarTemporary else MarkerTemporary
    }

    function Final(): Name { if Media? then MediaFinal else if Sidecar? then SidecarFinal else MarkerFinal }

    predicate Renames(op: Operation) {
      op == (if Media? then RenameMedia else if Sidecar? then RenameSidecar else RenameMarker)
    }

    predicate Writes(op: Operation) {
      if Media? then op == WriteMediaAccessUnit
      else if Sidecar? then op == WriteSidecarGroup || op == WriteSidecarSuffix
      else op == WriteMarker
    }

    predicate Syncs(op: Operation) {
      if Media? then op == SyncMediaTemporary || op == SyncMediaGroup
      else if Sidecar? then op == SyncSidecarTemporary || op == SyncSidecarGroup || op == SyncSidecar
      else op == SyncMarkerTemporary || op == SyncMarker
    }
  }

  // The file was written, then synced, then renamed.
  predicate Whole(ops: seq<Operation>, f: File)
    decreases |ops|
  {
    && ops != []
    && (|| Whole(ops[..|ops| - 1], f)
        || (Follows(ops[..|ops| - 1], op => f.Writes(op), op => f.Syncs(op)) && f.Renames(ops[|ops| - 1])))
  }

  datatype Marks = Marks(renamed: bool, written: bool, synced: bool, whole: bool)

  function MarksOf(ops: seq<Operation>, f: File): Marks
    decreases |ops|
  {
    if ops == [] then Marks(false, false, false, false)
    else
      var g, op := MarksOf(ops[..|ops| - 1], f), ops[|ops| - 1];
      Marks(g.renamed || f.Renames(op), g.written || f.Writes(op), g.synced || (g.written && f.Syncs(op)),
            g.whole || (g.synced && f.Renames(op)))
  }

  lemma {:induction false} MarksMean(ops: seq<Operation>, f: File)
    ensures MarksOf(ops, f).whole == Whole(ops, f)
    ensures MarksOf(ops, f).written == Occurs(ops, op => f.Writes(op))
    ensures MarksOf(ops, f).synced == Follows(ops, op => f.Writes(op), op => f.Syncs(op))
    decreases |ops|
  {
    if ops != [] {
      MarksMean(ops[..|ops| - 1], f);
    }
  }

  // No two names lead to one file.
  ghost predicate Single(s: State) {
    && Filed(s) && (forall i :: i in s.files ==> i < s.nextInode)
    && (forall n, m :: n in s.live && m in s.live && n != m ==> s.live[n] != s.live[m])
  }

  ghost predicate Tracks(s: State, f: File, g: Marks) {
    && Single(s) && (f.Final() in s.live <==> g.renamed)
    && (f.Final() in s.durable ==> g.renamed && s.durable[f.Final()] == s.live[f.Final()])
    && (g.renamed ==> (s.files[s.live[f.Final()]].durable > 0 <==> g.whole))
    && (!g.renamed ==>
          && !g.whole
          && (f.Temporary() in s.live ==> VersionsShow(s.files[s.live[f.Temporary()]], g.written, g.synced))
          && (f.Temporary() !in s.live ==> !g.written && !g.synced))
  }

  lemma CreateTracks(s: State, n: Name, f: File, g: Marks)
    requires Tracks(s, f, g) && Create(s, n).Ok? && n != f.Final()
    ensures Tracks(Create(s, n).value, f, g)
  {}

  lemma WriteTracks(s: State, n: Name, f: File, g: Marks, w: bool)
    requires Tracks(s, f, g) && Write(s, n).Ok? && n != f.Final() && (w <==> n == f.Temporary())
    ensures Tracks(Write(s, n).value, f, g.(written := g.written || w))
  {}

  lemma SyncTracks(s: State, n: Name, f: File, g: Marks, w: bool)
    requires Tracks(s, f, g) && SyncFile(s, n).Ok? && n != f.Final() && (w <==> n == f.Temporary())
    ensures Tracks(SyncFile(s, n).value, f, g.(synced := g.synced || (g.written && w)))
  {}

  lemma DirectoryTracks(s: State, f: File, g: Marks)
    requires Tracks(s, f, g)
    ensures Tracks(SyncDirectory(s), f, g)
  {}

  lemma RenameTracks(s: State, f: File, g: Marks)
    requires Tracks(s, f, g) && Rename(s, f.Temporary(), f.Final()).Ok?
    ensures Tracks(Rename(s, f.Temporary(), f.Final()).value, f, g.(renamed := true, whole := g.whole || g.synced))
  {}

  lemma OtherRenameTracks(s: State, e: File, f: File, g: Marks)
    requires Tracks(s, f, g) && Rename(s, e.Temporary(), e.Final()).Ok? && e != f
    ensures Tracks(Rename(s, e.Temporary(), e.Final()).value, f, g)
  {}

  lemma RemoveTracks(s: State, f: File, g: Marks)
    requires Tracks(s, f, g) && Remove(s, Journal).Ok?
    ensures Tracks(Remove(s, Journal).value, f, g)
  {}

  lemma SameTracks(s: State, t: State, f: File, g: Marks)
    requires Tracks(s, f, g)
    requires t.live == s.live && t.durable == s.durable && t.files == s.files && t.nextInode == s.nextInode
    ensures Tracks(t, f, g)
  {}

  function NextMarks(g: Marks, f: File, op: Operation): Marks {
    Marks(g.renamed || f.Renames(op), g.written || f.Writes(op), g.synced || (g.written && f.Syncs(op)),
          g.whole || (g.synced && f.Renames(op)))
  }

  // A write or a sync of a name, whatever counter moves with it.
  lemma WriteStepTracks(s: State, op: Operation, n: Name, f: File, g: Marks)
    requires Tracks(s, f, g) && Filed(s) && Step(s, op).Ok? && n != f.Final() && IsWrite(op) && OperatesOn(op) == n
    ensures Tracks(Step(s, op).value, f, g.(written := g.written || n == f.Temporary()))
  {
    hide Tracks, Write, SyncFile;
    WriteTracks(s, n, f, g, n == f.Temporary());
    SameTracks(Write(s, n).value, Step(s, op).value, f, g.(written := g.written || n == f.Temporary()));
  }

  lemma SyncStepTracks(s: State, op: Operation, n: Name, f: File, g: Marks)
    requires Tracks(s, f, g) && Filed(s) && Step(s, op).Ok? && n != f.Final()
    requires WritesOrSyncsFile(op) && !IsWrite(op) && OperatesOn(op) == n
    ensures Tracks(Step(s, op).value, f, g.(synced := g.synced || (g.written && n == f.Temporary())))
  {
    hide Tracks, Write, SyncFile;
    SyncTracks(s, n, f, g, n == f.Temporary());
    SameTracks(SyncFile(s, n).value, Step(s, op).value, f, g.(synced := g.synced || (g.written && n == f.Temporary())));
  }

  lemma WriteMarks(op: Operation, f: File, g: Marks)
    requires IsWrite(op)
    ensures OperatesOn(op) != f.Final()
    ensures NextMarks(g, f, op) == g.(written := g.written || OperatesOn(op) == f.Temporary())
  {}

  lemma SyncMarks(op: Operation, f: File, g: Marks)
    requires WritesOrSyncsFile(op) && !IsWrite(op)
    ensures OperatesOn(op) != f.Final()
    ensures NextMarks(g, f, op) == g.(synced := g.synced || (g.written && OperatesOn(op) == f.Temporary()))
  {}

  lemma FileStepTracks(s: State, op: Operation, f: File, g: Marks)
    requires Tracks(s, f, g) && Filed(s) && Step(s, op).Ok? && WritesOrSyncsFile(op)
    ensures Tracks(Step(s, op).value, f, NextMarks(g, f, op))
  {
    hide Tracks, Step, NextMarks, OperatesOn, IsWrite;
    if IsWrite(op) {
      WriteMarks(op, f, g);
      WriteStepTracks(s, op, OperatesOn(op), f, g);
    } else {
      SyncMarks(op, f, g);
      SyncStepTracks(s, op, OperatesOn(op), f, g);
    }
  }

  predicate IsWrite(op: Operation) {
    || WritesJournal(op)
    || op in {WriteMediaAccessUnit, WriteSidecarGroup, WriteSidecarSuffix, WriteMarker}
  }

  function OperatesOn(op: Operation): Name {
    if WritesJournal(op) || SyncsJournal(op) then Journal
    else if op in {SyncMediaTemporary, WriteMediaAccessUnit, SyncMediaGroup} then MediaTemporary
    else if op in {SyncMarkerTemporary, WriteMarker, SyncMarker} then MarkerTemporary
    else SidecarTemporary
  }

  lemma NameStepTracks(s: State, op: Operation, f: File, g: Marks)
    requires Tracks(s, f, g) && Filed(s) && Step(s, op).Ok? && !WritesOrSyncsFile(op)
    ensures Tracks(Step(s, op).value, f, NextMarks(g, f, op))
  {
    hide Tracks, Create, SyncDirectory, Rename, Remove;
    assert !f.Writes(op) && !f.Syncs(op);
    match op
    case CreateJournal => CreateTracks(s, Journal, f, g);
    case CreateMediaTemporary => CreateTracks(s, MediaTemporary, f, g);
    case CreateSidecarTemporary => CreateTracks(s, SidecarTemporary, f, g);
    case CreateMarkerTemporary => CreateTracks(s, MarkerTemporary, f, g);
    case RenameMedia => RenameStepTracks(s, Media, f, g);
    case RenameSidecar => RenameStepTracks(s, Sidecar, f, g);
    case RenameMarker => RenameStepTracks(s, Marker, f, g);
    case RemoveJournal => RemoveTracks(s, f, g);
    case AdmitMedia => SameTracks(s, Step(s, op).value, f, g);
    case _ => DirectoryTracks(s, f, g);
  }

  lemma RenameStepTracks(s: State, e: File, f: File, g: Marks)
    requires Tracks(s, f, g) && Rename(s, e.Temporary(), e.Final()).Ok?
    ensures Tracks(Rename(s, e.Temporary(), e.Final()).value, f,
                   if e == f then g.(renamed := true, whole := g.whole || g.synced) else g)
  {
    hide Tracks, Rename;
    if e == f {
      RenameTracks(s, f, g);
    } else {
      OtherRenameTracks(s, e, f, g);
    }
  }

  lemma StepTracks(s: State, op: Operation, f: File, g: Marks)
    requires Tracks(s, f, g) && Step(s, op).Ok?
    ensures Tracks(Step(s, op).value, f, NextMarks(g, f, op))
  {
    hide Tracks, Step, NextMarks;
    assert Filed(s) by { TracksFiled(s, f, g); }
    if WritesOrSyncsFile(op) {
      FileStepTracks(s, op, f, g);
    } else {
      NameStepTracks(s, op, f, g);
    }
  }

  lemma TracksFiled(s: State, f: File, g: Marks)
    requires Tracks(s, f, g)
    ensures Filed(s)
  {}

  lemma {:induction false} ExecuteTracks(ops: seq<Operation>, f: File)
    requires Execute(ops).Ok?
    ensures Tracks(Execute(ops).value, f, MarksOf(ops, f))
    decreases |ops|
  {
    hide Step, Tracks;
    if ops == [] {
      assert Tracks(Initial, f, MarksOf([], f)) by { InitialTracks(f); }
    } else {
      ExecuteTracks(ops[..|ops| - 1], f);
      StepTracks(Execute(ops[..|ops| - 1]).value, ops[|ops| - 1], f, MarksOf(ops[..|ops| - 1], f));
    }
  }

  lemma InitialTracks(f: File)
    ensures Tracks(Initial, f, MarksOf([], f))
  {}

  lemma DurableByMarks(s: State, f: File, g: Marks)
    requires Tracks(s, f, g) && f.Final() in s.durable
    ensures Filed(s) && (DurableVersion(s, f.Final()) > 0 <==> g.whole)
  {}

  /** What a crash would leave after any operations the guards admit, refusals included, told from the operations alone.
      Once the directory was synced after the marker's rename the recording is COMPLETE exactly if the marker, the media
      and the sidecar
      were each written and synced before their renames, and otherwise the first of them that was not is reported. */
  lemma CrashExactly(ops: seq<Operation>)
    requires Execute(ops).Ok?
    ensures CrashOutcome(Execute(ops).value) ==
            if Follows(ops, Renames, DirectorySync) then
              (if !Whole(ops, Marker) then Err(MarkerNotDurable) else if !Whole(ops, Media) then Err(MediaNotDurable)
               else if !Whole(ops, Sidecar) then Err(SidecarNotDurable) else Ok(Complete))
            else if !Follows(ops, Creates, DirectorySync) then Ok(Absent)
            else if !Follows(ops, JournalWrite, JournalSync) then Ok(PreparedHeaderIncomplete)
            else if Committed(ops) == 0 then Ok(PreparedIncomplete)
            else Ok(Incomplete)
  {
    hide Step, Execute, Follows, Occurs, Whole, Committed, Shows, CrashOutcome;
    ExecuteShows(ops);
    MarkedBySigns(Execute(ops).value, SignsOf(ops));
    if MarkerFinal in Execute(ops).value.durable {
      MarkedCrash(ops);
    } else {
      UnmarkedCrash(ops);
      OutcomeExactly(ops);
    }
  }

  lemma MarkedCrash(ops: seq<Operation>)
    requires Execute(ops).Ok? && MarkerFinal in Execute(ops).value.durable
    ensures CrashOutcome(Execute(ops).value) ==
            if !Whole(ops, Marker) then Err(MarkerNotDurable) else if !Whole(ops, Media) then Err(MediaNotDurable)
            else if !Whole(ops, Sidecar) then Err(SidecarNotDurable) else Ok(Complete)
  {
    hide Step, Execute, Whole, DurableVersion, CrashOutcome;
    OrderingChecksNeverFire(ops);
    Outcomes(Execute(ops).value);
    FileDurable(ops, Marker);
    FileDurable(ops, Media);
    FileDurable(ops, Sidecar);
  }

  lemma UnmarkedCrash(ops: seq<Operation>)
    requires Execute(ops).Ok? && MarkerFinal !in Execute(ops).value.durable
    ensures CrashOutcome(Execute(ops).value).Ok?
  {
    hide Step, Execute, DurableVersion, CrashOutcome;
    OrderingChecksNeverFire(ops);
    Outcomes(Execute(ops).value);
  }

  lemma Outcomes(s: State)
    requires Filed(s)
    ensures MarkerFinal in s.durable && MediaFinal in s.durable && SidecarFinal in s.durable ==>
              CrashOutcome(s) ==
              if DurableVersion(s, MarkerFinal) == 0 then Err(MarkerNotDurable)
              else if DurableVersion(s, MediaFinal) == 0 then Err(MediaNotDurable)
              else if DurableVersion(s, SidecarFinal) == 0 then Err(SidecarNotDurable) else Ok(Complete)
    ensures MarkerFinal in s.durable && (MediaFinal !in s.durable || SidecarFinal !in s.durable) ==>
              CrashOutcome(s) == Err(MarkerPrecedesCompanions)
    ensures MarkerFinal !in s.durable ==>
              CrashOutcome(s).Ok? || CrashOutcome(s) == Err(JournalPrecedesMedia)
              || CrashOutcome(s) == Err(AdmittedWithoutAnchor)
  {}

  lemma FileDurable(ops: seq<Operation>, f: File)
    requires Execute(ops).Ok? && f.Final() in Execute(ops).value.durable
    ensures DurableVersion(Execute(ops).value, f.Final()) > 0 <==> Whole(ops, f)
  {
    hide Step, Execute, Follows, Occurs, Whole, Tracks;
    ExecuteTracks(ops, f);
    MarksMean(ops, f);
    DurableByMarks(Execute(ops).value, f, MarksOf(ops, f));
  }

  lemma MarkedBySigns(s: State, g: Signs)
    requires Shows(s, g)
    ensures MarkerFinal in s.durable <==> g.marked
  {}
}
