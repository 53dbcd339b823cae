/** Recording sessions as the recorder runs them: prepare, admit, record in any pattern, publish. */
module RecordingPrograms {
  import opened Common
  import opened CrashModel

  const Prepare: seq<Operation> := [
    CreateJournal, CreateMediaTemporary, CreateSidecarTemporary, CreateMarkerTemporary, WriteJournalHeader,
    SyncJournalHeader, SyncMediaTemporary, SyncSidecarTemporary, SyncMarkerTemporary, SyncPreparedDirectory, AdmitMedia]

  const Publish: seq<Operation> := [
    WriteSidecarSuffix, SyncSidecar, RenameMedia, RenameSidecar, SyncPublicationDirectory, WriteMarker, SyncMarker,
    RenameMarker, SyncMarkerDirectory, RemoveJournal, SyncCleanupDirectory]

  function Repeat(op: Operation, n: nat): seq<Operation> {
    if n == 0 then [] else Repeat(op, n - 1) + [op]
  }

  // One commit group of `n` access units.
  function Group(n: nat): seq<Operation> {
    Repeat(WriteMediaAccessUnit, n)
    + [SyncMediaGroup, WriteJournalGroup, SyncJournalGroup, WriteSidecarGroup, SyncSidecarGroup]
  }

  function Groups(sizes: seq<nat>): seq<Operation> {
    if sizes == [] then [] else Groups(sizes[..|sizes| - 1]) + Group(sizes[|sizes| - 1])
  }

  function Total(sizes: seq<nat>): nat {
    if sizes == [] then 0 else Total(sizes[..|sizes| - 1]) + sizes[|sizes| - 1]
  }

  predicate IsRecording(op: Operation) {
    op in {WriteMediaAccessUnit, SyncMediaGroup, WriteJournalGroup, SyncJournalGroup, WriteSidecarGroup,
           SyncSidecarGroup}
  }

  const Names: map<Name, nat> := map[Journal := 1, MediaTemporary := 2, SidecarTemporary := 3, MarkerTemporary := 4]

  // Admitted, nothing published: the four prepared names are live and durable, and the media file holds one version
  // for each access unit.
  ghost predicate Recording(s: State) {
    && s.live == Names && s.durable == Names
    && s.files.Keys == {1, 2, 3, 4}
    && s.admitted
    && s.files[1].durable > 0
    && s.files[1].durable <= s.files[1].live && s.files[3].durable <= s.files[3].live
    && s.files[2] == FileState(s.pending, s.durableMedia)
    && s.durableMedia <= s.pending
    && s.durableJournal <= s.durableMedia
  }

  lemma ReplayOneMore(s: State, ops: seq<Operation>, k: nat, t: State, u: State)
    requires Filed(s) && k < |ops| && Replay(s, ops[..k]) == Ok(t)
    requires Filed(t) && Step(t, ops[k]) == Ok(u) && Filed(u) && CrashOutcome(u).Ok?
    ensures Replay(s, ops[..k + 1]) == Ok(u)
  {
    hide Step, CrashOutcome;
    assert ops[..k + 1] == ops[..k] + [ops[k]];
    ReplayAppend(s, ops[..k], [ops[k]]);
    assert [ops[k]][1..] == [];
    assert Replay(u, []) == Ok(u);
  }

  // -------- preparation --------

  const Blank := FileState(0, 0)

  function PreparedNames(k: nat): map<Name, nat> {
    if k == 0 then map[]
    else if k == 1 then map[Journal := 1]
    else if k == 2 then map[Journal := 1, MediaTemporary := 2]
    else if k == 3 then map[Journal := 1, MediaTemporary := 2, SidecarTemporary := 3]
    else Names
  }

  function PreparedFiles(k: nat): map<nat, FileState> {
    if k == 0 then map[]
    else if k == 1 then map[1 := Blank]
    else if k == 2 then map[1 := Blank, 2 := Blank]
    else if k == 3 then map[1 := Blank, 2 := Blank, 3 := Blank]
    else map[1 := FileState(if k <= 4 then 0 else 1, if k <= 5 then 0 else 1), 2 := Blank, 3 := Blank, 4 := Blank]
  }

  // The state after the first `k` operations of the preparation.
  function Preparing(k: nat): State {
    var durable := if k < 10 then map[] else Names;
    State(PreparedNames(k), durable, PreparedFiles(k), (if k < 4 then k else 4) + 1, k >= 11, 0, 0, 0, 0)
  }

  lemma PreparingFiled(k: nat)
    ensures Filed(Preparing(k)) && CrashOutcome(Preparing(k)).Ok?
  {}

  lemma PreparingCreates(k: nat)
    requires k < 4 && Filed(Preparing(k))
    ensures Step(Preparing(k), Prepare[k]) == Ok(Preparing(k + 1))
  {
    var s, t := Preparing(k), Preparing(k + 1);
    assert Step(s, Prepare[k]) == Create(s, Prepare[k].Target());
    assert t.live == s.live[Prepare[k].Target() := k + 1] && t.files == s.files[k + 1 := Blank];
  }

  lemma PreparingSyncs(k: nat)
    requires 4 <= k < |Prepare| && Filed(Preparing(k))
    ensures Step(Preparing(k), Prepare[k]) == Ok(Preparing(k + 1))
  {
    var s, t := Preparing(k), Preparing(k + 1);
    if k == 4 {
      assert t.files == s.files[1 := FileState(1, 0)];
    } else if k == 5 {
      assert t.files == s.files[1 := FileState(1, 1)];
    } else if k < 9 {
      assert s.files[k - 4 := Blank] == t.files;
    }
  }

  lemma {:induction false} PrepareReplays(k: nat)
    requires k <= |Prepare|
    ensures Replay(Initial, Prepare[..k]) == Ok(Preparing(k))
  {
    hide Step, CrashOutcome;
    if k == 0 {
      assert Preparing(0) == Initial;
    } else {
      PrepareReplays(k - 1);
      PreparingFiled(k - 1);
      PreparingFiled(k);
      if k <= 4 { PreparingCreates(k - 1); } else { PreparingSyncs(k - 1); }
      ReplayOneMore(Initial, Prepare, k - 1, Preparing(k - 1), Preparing(k));
    }
  }

  // -------- publication --------

  function PublishedNames(k: nat): map<Name, nat> {
    if k < 3 then Names
    else if k == 3 then map[Journal := 1, MediaFinal := 2, SidecarTemporary := 3, MarkerTemporary := 4]
    else if k < 8 then map[Journal := 1, MediaFinal := 2, SidecarFinal := 3, MarkerTemporary := 4]
    else if k < 10 then map[Journal := 1, MediaFinal := 2, SidecarFinal := 3, MarkerFinal := 4]
    else map[MediaFinal := 2, SidecarFinal := 3, MarkerFinal := 4]
  }

  // A state `k` operations into the publication of a recording with the counts of `s`.
  ghost predicate Publishing(s: State, t: State, k: nat) {
    && t.live == PublishedNames(k)
    && t.durable == PublishedNames(if k < 5 then 0 else if k < 9 then 4 else if k < 11 then 8 else 10)
    && t.files.Keys == {1, 2, 3, 4}
    && t.files[1].durable > 0
    && t.files[2].durable == s.durableMedia
    && (k >= 1 ==> t.files[3].live > 0)
    && (k >= 2 ==> t.files[3].durable > 0)
    && (k >= 6 ==> t.files[4].live > 0)
    && (k >= 7 ==> t.files[4].durable > 0)
    && t.durableJournal <= t.durableMedia
    && t.pending == s.pending && t.durableMedia == s.durableMedia && t.durableJournal == s.durableJournal
  }

  lemma PublishingFiled(s: State, t: State, k: nat)
    requires Publishing(s, t, k)
    ensures Filed(t)
    ensures k < 9 ==> CrashOutcome(t).Ok?
    ensures k >= 9 ==> CrashOutcome(t) == if s.durableMedia > 0 then Ok(Complete) else Err(MediaNotDurable)
  {}

  lemma PublishingFiles(s: State, t: State, k: nat)
    requires k in {0, 1, 5, 6} && Publishing(s, t, k) && Filed(t)
    ensures Step(t, Publish[k]).Ok? && Publishing(s, Step(t, Publish[k]).value, k + 1)
  {}

  ghost predicate Moves(k: nat, source: Name, destination: Name) {
    && source in PublishedNames(k) && destination !in PublishedNames(k)
    && (PublishedNames(k) - {source})[destination := PublishedNames(k)[source]] == PublishedNames(k + 1)
  }

  lemma MediaMoves()
    ensures Moves(2, MediaTemporary, MediaFinal)
  {}

  lemma SidecarMoves()
    ensures Moves(3, SidecarTemporary, SidecarFinal)
  {}

  lemma MarkerMoves()
    ensures Moves(7, MarkerTemporary, MarkerFinal) && MediaFinal in PublishedNames(4)
    ensures SidecarFinal in PublishedNames(4)
  {}

  lemma JournalLeaves()
    ensures Journal in PublishedNames(9) && PublishedNames(9) - {Journal} == PublishedNames(10)
    ensures MarkerFinal in PublishedNames(8)
  {}

  lemma SameNames()
    ensures PublishedNames(8) == PublishedNames(9) && PublishedNames(10) == PublishedNames(11)
    ensures PublishedNames(4) == PublishedNames(5)
  {}

  lemma PublishingRenames(s: State, t: State, k: nat)
    requires k in {2, 3, 7} && Publishing(s, t, k) && Filed(t)
    ensures Step(t, Publish[k]).Ok? && Publishing(s, Step(t, Publish[k]).value, k + 1)
  {
    hide PublishedNames;
    MediaMoves();
    SidecarMoves();
    MarkerMoves();
    assert Publish[2] == RenameMedia && Publish[3] == RenameSidecar && Publish[7] == RenameMarker;
  }

  lemma PublishingDirectories(s: State, t: State, k: nat)
    requires k in {4, 8, 9, 10} && Publishing(s, t, k) && Filed(t)
    ensures Step(t, Publish[k]).Ok? && Publishing(s, Step(t, Publish[k]).value, k + 1)
  {
    hide PublishedNames;
    JournalLeaves();
    SameNames();
    assert Publish[4] == SyncPublicationDirectory && Publish[8] == SyncMarkerDirectory;
    assert Publish[9] == RemoveJournal && Publish[10] == SyncCleanupDirectory;
  }

  lemma PublishingStep(s: State, t: State, k: nat)
    requires k < |Publish| && Publishing(s, t, k) && Filed(t)
    ensures Step(t, Publish[k]).Ok? && Publishing(s, Step(t, Publish[k]).value, k + 1)
  {
    hide Step, Publishing;
    if k in {0, 1, 5, 6} {
      PublishingFiles(s, t, k);
    } else if k in {2, 3, 7} {
      PublishingRenames(s, t, k);
    } else {
      PublishingDirectories(s, t, k);
    }
  }

  lemma {:induction false} PublishReplays(s: State, k: nat)
    requires Filed(s) && Publishing(s, s, 0) && k <= |Publish|
    requires k < 9 || s.durableMedia > 0
    ensures var r := Replay(s, Publish[..k]); r.Ok? && Publishing(s, r.value, k)
  {
    hide Step, CrashOutcome;
    if k > 0 {
      PublishReplays(s, k - 1);
      var t := Replay(s, Publish[..k - 1]).value;
      PublishingStep(s, t, k - 1);
      PublishingFiled(s, Step(t, Publish[k - 1]).value, k);
      ReplayOneMore(s, Publish, k - 1, t, Step(t, Publish[k - 1]).value);
    }
  }

  // Without a durable access unit the marker's barrier exposes an empty media file.
  lemma PublishFails(s: State)
    requires Filed(s) && Publishing(s, s, 0) && s.durableMedia == 0
    ensures Replay(s, Publish) == Err(MediaNotDurable)
  {
    hide Step, CrashOutcome;
    PublishReplays(s, 8);
    var t := Replay(s, Publish[..8]).value;
    PublishingStep(s, t, 8);
    var u := Step(t, Publish[8]).value;
    PublishingFiled(s, u, 9);
    assert Publish == Publish[..8] + Publish[8..];
    ReplayAppend(s, Publish[..8], Publish[8..]);
    assert Publish[8..][0] == Publish[8];
  }

  // -------- recording --------

  lemma RecordingStep(s: State, op: Operation)
    requires Filed(s) && Recording(s) && IsRecording(op)
    ensures Step(s, op).Ok? <==> !(op == SyncJournalGroup && s.liveJournal > s.durableMedia)
    ensures Step(s, op).Ok? ==> Filed(Step(s, op).value) && Recording(Step(s, op).value)
  {}

  lemma RecordingCrashes(s: State)
    requires Filed(s) && Recording(s)
    ensures CrashOutcome(s).Ok? && Publishing(s, s, 0)
  {}

  ghost predicate AllRecording(ops: seq<Operation>) { forall i :: 0 <= i < |ops| ==> IsRecording(ops[i]) }

  /** Recording operations in any pattern fail only at a journal sync ahead of the media. */
  lemma {:induction false} RecordingReplays(s: State, ops: seq<Operation>)
    requires Filed(s) && Recording(s) && AllRecording(ops)
    ensures match Replay(s, ops)
            case Ok(t) => Recording(t)
            case Err(f) => f == CommitPrecedesMedia
    decreases ops
  {
    hide CrashOutcome;
    if ops != [] {
      RecordingStep(s, ops[0]);
      if Step(s, ops[0]).Ok? {
        RecordingCrashes(Step(s, ops[0]).value);
        RecordingReplays(Step(s, ops[0]).value, ops[1..]);
      }
    }
  }

  lemma Prepared11()
    ensures Replay(Initial, Prepare) == Ok(Preparing(11)) && Recording(Preparing(11)) && Filed(Preparing(11))
  {
    PrepareReplays(11);
    assert Prepare[..11] == Prepare;
  }

  /** Prepare, record in any pattern the guards accept, publish: nothing is refused exactly when some access unit lies
      before a media sync; the recording is then COMPLETE, and it has every written unit durable in both media and
      journal exactly when the last journal write before the last journal sync covers every unit. */
  lemma PublishExactly(ops: seq<Operation>)
    requires AllRecording(ops) && Replay(Initial, Prepare + ops).Ok?
    ensures Replay(Initial, Prepare + ops + Publish).Ok? <==> Synced(Prepare + ops) > 0
    ensures var r := Replay(Initial, Prepare + ops + Publish);
            r.Ok? ==>
              && CrashOutcome(r.value) == Ok(Complete)
              && r.value.pending == Written(Prepare + ops)
              && ((r.value.durableMedia == r.value.pending && r.value.durableJournal == r.value.pending)
                  <==> Committed(Prepare + ops) == Written(Prepare + ops))
  {
    hide Step, CrashOutcome, Publishing;
    Prepared11();
    ReplayAppend(Initial, Prepare, ops);
    RecordingReplays(Preparing(11), ops);
    var s := Replay(Initial, Prepare + ops).value;
    ReplayExecutes(Prepare + ops);
    CountsExactly(Prepare + ops);
    RecordingCrashes(s);
    ReplayAppend(Initial, Prepare + ops, Publish);
    if s.durableMedia > 0 {
      PublishReplays(s, |Publish|);
      assert Publish[..|Publish|] == Publish;
      Published(s, Replay(s, Publish).value);
    } else {
      PublishFails(s);
    }
  }

  lemma Published(s: State, t: State)
    requires Publishing(s, t, 11) && s.durableMedia > 0
    ensures Filed(t) && CrashOutcome(t) == Ok(Complete)
    ensures t.pending == s.pending && t.durableMedia == s.durableMedia && t.durableJournal == s.durableJournal
  {
    PublishingFiled(s, t, 11);
  }

  // -------- commit groups --------

  // A group boundary: everything written is durable and committed.
  ghost predicate Settled(s: State, units: nat) {
    Filed(s) && Recording(s) && s.pending == units && s.durableMedia == units && s.durableJournal == units
  }

  lemma {:induction false} WritesReplay(s: State, n: nat)
    requires Filed(s) && Recording(s)
    ensures var r := Replay(s, Repeat(WriteMediaAccessUnit, n));
            && r.Ok? && Recording(r.value) && r.value.pending == s.pending + n
            && r.value.durableMedia == s.durableMedia && r.value.durableJournal == s.durableJournal
  {
    hide CrashOutcome, Step, Recording;
    if n > 0 {
      WritesReplay(s, n - 1);
      var t := Replay(s, Repeat(WriteMediaAccessUnit, n - 1)).value;
      RecordingStep(t, WriteMediaAccessUnit);
      StepCounts(t, WriteMediaAccessUnit);
      var u := Step(t, WriteMediaAccessUnit).value;
      RecordingCrashes(u);
      var ops := Repeat(WriteMediaAccessUnit, n);
      assert ops[..|ops| - 1] == Repeat(WriteMediaAccessUnit, n - 1) && ops[..|ops| - 1 + 1] == ops;
      ReplayOneMore(s, ops, |ops| - 1, t, u);
    }
  }

  // One accepted recording operation appended to a replay.
  lemma Then(s: State, ops: seq<Operation>, op: Operation)
    requires Filed(s) && Replay(s, ops).Ok? && Recording(Replay(s, ops).value) && IsRecording(op)
    requires op == SyncJournalGroup ==> Replay(s, ops).value.liveJournal <= Replay(s, ops).value.durableMedia
    ensures var t := Replay(s, ops).value;
            && Step(t, op).Ok? && Replay(s, ops + [op]) == Step(t, op) && Recording(Step(t, op).value)
  {
    hide CrashOutcome;
    var t := Replay(s, ops).value;
    RecordingStep(t, op);
    RecordingCrashes(Step(t, op).value);
    assert (ops + [op])[..|ops|] == ops && (ops + [op])[..|ops| + 1] == ops + [op];
    ReplayOneMore(s, ops + [op], |ops|, t, Step(t, op).value);
  }

  lemma GroupReplays(s: State, units: nat, n: nat)
    requires Settled(s, units)
    ensures Replay(s, Group(n)).Ok? && Settled(Replay(s, Group(n)).value, units + n)
  {
    hide Step, Recording, Replay;
    WritesReplay(s, n);
    var a := Repeat(WriteMediaAccessUnit, n);
    Then(s, a, SyncMediaGroup);
    StepCounts(Replay(s, a).value, SyncMediaGroup);
    var b := a + [SyncMediaGroup];
    Then(s, b, WriteJournalGroup);
    StepCounts(Replay(s, b).value, WriteJournalGroup);
    var c := b + [WriteJournalGroup];
    Then(s, c, SyncJournalGroup);
    StepCounts(Replay(s, c).value, SyncJournalGroup);
    var d := c + [SyncJournalGroup];
    Then(s, d, WriteSidecarGroup);
    StepCounts(Replay(s, d).value, WriteSidecarGroup);
    var e := d + [WriteSidecarGroup];
    Then(s, e, SyncSidecarGroup);
    StepCounts(Replay(s, e).value, SyncSidecarGroup);
    assert Group(n) == e + [SyncSidecarGroup];
  }

  lemma {:induction false} GroupsReplay(sizes: seq<nat>)
    ensures var r := Replay(Preparing(11), Groups(sizes)); r.Ok? && Settled(r.value, Total(sizes))
    ensures AllRecording(Groups(sizes))
  {
    hide Step, Recording, Replay;
    Prepared11();
    if sizes == [] {
      assert Replay(Preparing(11), []) == Ok(Preparing(11)) by { ReplayNothing(Preparing(11)); }
    } else {
      var before, n := sizes[..|sizes| - 1], sizes[|sizes| - 1];
      GroupsReplay(before);
      var s := Replay(Preparing(11), Groups(before)).value;
      GroupReplays(s, Total(before), n);
      ReplayAppend(Preparing(11), Groups(before), Group(n));
      RepeatRecording(n);
    }
  }

  lemma ReplayNothing(s: State)
    requires Filed(s)
    ensures Replay(s, []) == Ok(s)
  {}

  lemma {:induction false} RepeatRecording(n: nat)
    ensures AllRecording(Repeat(WriteMediaAccessUnit, n))
  {
    if n > 0 {
      RepeatRecording(n - 1);
    }
  }

  /** Prepare, any number of commit groups of any sizes, at least one of them not empty, publish: no operation is
      refused at any cut, the recording ends COMPLETE, and every admitted access unit is durable in both media and
      journal. */
  lemma CommitGroupsComplete(sizes: seq<nat>)
    requires Total(sizes) > 0
    ensures Cuts(Initial, Prepare + Groups(sizes) + Publish).Ok?
    ensures var r := Replay(Initial, Prepare + Groups(sizes) + Publish);
            && r.Ok? && CrashOutcome(r.value) == Ok(Complete)
            && r.value.pending == r.value.durableMedia == r.value.durableJournal == Total(sizes)
  {
    hide Step, Recording, Replay, CrashOutcome;
    Prepared11();
    GroupsReplay(sizes);
    ReplayAppend(Initial, Prepare, Groups(sizes));
    var ops := Prepare + Groups(sizes);
    ReplayExecutes(ops);
    CountsExactly(ops);
    PublishExactly(Groups(sizes));
    CutsReplay(Initial, ops + Publish);
  }

  lemma StepMarker(s: State, op: Operation)
    requires Filed(s) && Step(s, op).Ok? && op != RenameMarker && MarkerFinal !in s.live && MarkerFinal !in s.durable
    ensures MarkerFinal !in Step(s, op).value.live && MarkerFinal !in Step(s, op).value.durable
  {}

  lemma {:induction false} MarkerNeedsRename(ops: seq<Operation>)
    requires Execute(ops).Ok? && RenameMarker !in ops
    ensures MarkerFinal !in Execute(ops).value.live && MarkerFinal !in Execute(ops).value.durable
  {
    hide Step;
    if ops != [] {
      MarkerNeedsRename(ops[..|ops| - 1]);
      StepMarker(Execute(ops[..|ops| - 1]).value, ops[|ops| - 1]);
    }
  }

  lemma NoRenameYet(ops: seq<Operation>)
    requires AllRecording(ops)
    ensures RenameMarker !in Prepare + ops
  {}

  // A prefix of the program that ends before the publication has no COMPLETE cut.
  lemma EarlyCut(sizes: seq<nat>, i: nat)
    requires i < |Prepare + Groups(sizes)|
    requires Replay(Initial, (Prepare + Groups(sizes) + Publish)[..i + 1]).Ok?
    ensures CrashOutcome(Replay(Initial, (Prepare + Groups(sizes) + Publish)[..i + 1]).value) != Ok(Complete)
  {
    hide Step, Replay, CrashOutcome, Execute;
    var body := Prepare + Groups(sizes);
    var ops := (body + Publish)[..i + 1];
    assert ops == body[..i + 1];
    GroupsReplay(sizes);
    NoRenameYet(Groups(sizes));
    ReplayExecutes(ops);
    MarkerNeedsRename(ops);
    NotComplete(Replay(Initial, ops).value);
  }

  // A prefix that ends inside the publication has the counts of the last commit.
  lemma LateCut(sizes: seq<nat>, k: nat)
    requires Total(sizes) > 0 && k <= |Publish|
    ensures var r := Replay(Initial, Prepare + Groups(sizes) + Publish[..k]);
            r.Ok? && r.value.durableMedia == r.value.durableJournal == Total(sizes)
  {
    hide Step, Recording, Replay, CrashOutcome, Publishing;
    var body := Prepare + Groups(sizes);
    Prepared11();
    GroupsReplay(sizes);
    ReplayAppend(Initial, Prepare, Groups(sizes));
    var s := Replay(Initial, body).value;
    ReplayAppend(Initial, body, Publish[..k]);
    RecordingCrashes(s);
    PublishReplays(s, k);
    SameCounts(s, Replay(s, Publish[..k]).value, k);
  }

  /** At every COMPLETE cut of such a program, not only the last, every admitted access unit is durable in both. */
  lemma EveryCompleteCutHasAll(sizes: seq<nat>, i: nat)
    requires Total(sizes) > 0 && i < |Prepare + Groups(sizes) + Publish|
    ensures var ops := Prepare + Groups(sizes) + Publish;
            && Cuts(Initial, ops).Ok? && |Cuts(Initial, ops).value| == |ops|
            && (Cuts(Initial, ops).value[i].outcome == Complete ==>
                  Cuts(Initial, ops).value[i].journal == Cuts(Initial, ops).value[i].media == Total(sizes))
  {
    hide Step, Replay, CrashOutcome, Cuts, Groups, Total;
    CommitGroupsComplete(sizes);
    var body := Prepare + Groups(sizes);
    var ops := body + Publish;
    CutsReplay(Initial, ops);
    CutAt(Initial, ops, i);
    if i < |body| {
      EarlyCut(sizes, i);
    } else {
      var k := i + 1 - |body|;
      assert ops[..i + 1] == body + Publish[..k];
      LateCut(sizes, k);
    }
  }

  lemma NotComplete(t: State)
    requires Filed(t) && MarkerFinal !in t.durable
    ensures CrashOutcome(t) != Ok(Complete)
  {}

  lemma SameCounts(s: State, t: State, k: nat)
    requires Publishing(s, t, k)
    ensures t.durableMedia == s.durableMedia && t.durableJournal == s.durableJournal
  {}

  /** The condition matters: one access unit written after the last commit is lost although the recording is
      COMPLETE. */
  lemma UncommittedUnitIsLost(sizes: seq<nat>)
    requires Total(sizes) > 0
    ensures var r := Replay(Initial, Prepare + (Groups(sizes) + [WriteMediaAccessUnit]) + Publish);
            r.Ok? && CrashOutcome(r.value) == Ok(Complete) && r.value.durableJournal < r.value.pending
  {
    hide Step, Recording, Replay, CrashOutcome;
    Prepared11();
    GroupsReplay(sizes);
    var tail := Groups(sizes) + [WriteMediaAccessUnit];
    Then(Preparing(11), Groups(sizes), WriteMediaAccessUnit);
    StepCounts(Replay(Preparing(11), Groups(sizes)).value, WriteMediaAccessUnit);
    ReplayAppend(Initial, Prepare, tail);
    ReplayExecutes(Prepare + tail);
    CountsExactly(Prepare + tail);
    PublishExactly(tail);
    var r := Replay(Initial, Prepare + tail + Publish).value;
    ReplayExecutes(Prepare + tail + Publish);
    ExecuteInvariant(Prepare + tail + Publish);
  }
}
