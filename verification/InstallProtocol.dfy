/** Putting a bundled binary in place (`install_copy` and `sweep_stale_tmp`,
    src-tauri/src/bundled_bin.rs): any number of installers, each with its own
    source bytes, a sweeper, and a crash of anyone between any two system calls.

    A directory maps names to nodes; a plain file is an inode, which an open handle
    keeps writing whatever happens to its name. Each run's temp name carries its own
    fresh identifier. */
module InstallProtocol {
  import opened Bytes
  import opened Wrappers

  const EXECUTABLE: nat := 493 // 0o755

  type Ino = nat

  datatype File = File(content: seq<Byte>, mode: nat, ours: bool)

  datatype Node = Regular(ino: Ino) | Symlink | Directory

  datatype Name = Dest | Tmp(run: nat)

  datatype Installed = Unchanged | Replaced

  /** What a run of `install_copy` is about to do. */
  datatype Phase =
    | LookAtDest                  // symlink_metadata(dest)
    | OpenDest                    // the metadata is an installed copy's
    | CompareDest(ino: Ino)       // dest is open; its bytes are next
    | CreateTmp
    | CopyTo(ino: Ino)
    | SetMode(ino: Ino)
    | RenameTmp(ino: Ino)         // synced; the rename is next
    | CleanUp                     // something failed: remove the temp file
    | Finished(result: Result<Installed, ()>)
    | Crashed

  datatype State = State(files: map<Ino, File>, dir: map<Name, Node>, runs: map<nat, Phase>)

  datatype Event =
    | Begin(run: nat)
    | Look(run: nat)
    | Open(run: nat)
    | OpenFails(run: nat)
    | Compare(run: nat)
    | CompareFails(run: nat)
    | Create(run: nat, ino: Ino, mode: nat)
    | CopySome(run: nat, count: nat)
    | CopyEnds(run: nat)
    | Chmod(run: nat)
    | Rename(run: nat)
    | Fails(run: nat)
    | Clean(run: nat, removed: bool)
    | Crash(run: nat)
    | Sweep(swept: nat)

  predicate IsCopy(file: File, source: seq<Byte>) {
    file == File(source, EXECUTABLE, true)
  }

  /** The checks made on the target's metadata before it is opened. */
  predicate LooksInstalled(s: State, source: seq<Byte>) {
    && Dest in s.dir && s.dir[Dest].Regular? && s.dir[Dest].ino in s.files
    && var file := s.files[s.dir[Dest].ino];
       |file.content| == |source| && file.ours && file.mode == EXECUTABLE
  }

  ghost predicate Enabled(sources: nat -> seq<Byte>, s: State, e: Event) {
    match e
    case Begin(run) => run !in s.runs
    case Look(run) => run in s.runs && s.runs[run].LookAtDest?
    case Open(run) => run in s.runs && s.runs[run].OpenDest? && Dest in s.dir && s.dir[Dest].Regular?
    case OpenFails(run) => run in s.runs && s.runs[run].OpenDest?
    case Compare(run) => run in s.runs && s.runs[run].CompareDest? && s.runs[run].ino in s.files
    case CompareFails(run) => run in s.runs && (s.runs[run].CompareDest? || s.runs[run].LookAtDest?)
    case Create(run, ino, _) =>
      run in s.runs && s.runs[run].CreateTmp? && Tmp(run) !in s.dir && ino !in s.files
    case CopySome(run, count) =>
      && run in s.runs && s.runs[run].CopyTo? && s.runs[run].ino in s.files
      && 0 < count <= |sources(run)| - |s.files[s.runs[run].ino].content|
    case CopyEnds(run) =>
      && run in s.runs && s.runs[run].CopyTo? && s.runs[run].ino in s.files
      && |s.files[s.runs[run].ino].content| == |sources(run)|
    case Chmod(run) => run in s.runs && s.runs[run].SetMode? && s.runs[run].ino in s.files
    case Rename(run) =>
      && run in s.runs && s.runs[run].RenameTmp? && Tmp(run) in s.dir
      && (Dest in s.dir ==> !s.dir[Dest].Directory?)
    case Fails(run) =>
      run in s.runs &&
      (s.runs[run].CreateTmp? || s.runs[run].CopyTo? || s.runs[run].SetMode? || s.runs[run].RenameTmp?)
    case Clean(run, _) => run in s.runs && s.runs[run].CleanUp?
    case Crash(run) => run in s.runs
    case Sweep(_) => true
  }

  function Next(sources: nat -> seq<Byte>, s: State, e: Event): State
    requires Enabled(sources, s, e)
  {
    match e
    case Begin(run) => s.(runs := s.runs[run := LookAtDest])
    case Look(run) => s.(runs := s.runs[run := if LooksInstalled(s, sources(run)) then OpenDest else CreateTmp])
    case Open(run) => s.(runs := s.runs[run := CompareDest(s.dir[Dest].ino)])
    case OpenFails(run) => s.(runs := s.runs[run := CreateTmp])
    case Compare(run) =>
      var same := s.files[s.runs[run].ino].content == sources(run);
      s.(runs := s.runs[run := if same then Finished(Ok(Unchanged)) else CreateTmp])
    case CompareFails(run) => s.(runs := s.runs[run := Finished(Err(()))])
    case Create(run, ino, mode) =>
      State(s.files[ino := File([], mode, true)], s.dir[Tmp(run) := Regular(ino)], s.runs[run := CopyTo(ino)])
    case CopySome(run, count) =>
      var ino := s.runs[run].ino;
      s.(files := s.files[ino := s.files[ino].(content := sources(run)[..|s.files[ino].content| + count])])
    case CopyEnds(run) => s.(runs := s.runs[run := SetMode(s.runs[run].ino)])
    case Chmod(run) =>
      var ino := s.runs[run].ino;
      s.(files := s.files[ino := s.files[ino].(mode := EXECUTABLE)], runs := s.runs[run := RenameTmp(ino)])
    case Rename(run) =>
      s.(dir := (s.dir - {Tmp(run)})[Dest := s.dir[Tmp(run)]], runs := s.runs[run := Finished(Ok(Replaced))])
    case Fails(run) => s.(runs := s.runs[run := CleanUp])
    case Clean(run, removed) =>
      s.(dir := if removed then s.dir - {Tmp(run)} else s.dir, runs := s.runs[run := Finished(Err(()))])
    case Crash(run) => s.(runs := s.runs[run := Crashed])
    case Sweep(swept) => s.(dir := s.dir - {Tmp(swept)})
  }

  ghost predicate IsRun(sources: nat -> seq<Byte>, events: seq<Event>, states: seq<State>) {
    && |states| == |events| + 1 && states[0].runs == map[]
    && forall i :: 0 <= i < |events| ==>
         Enabled(sources, states[i], events[i]) && states[i + 1] == Next(sources, states[i], events[i])
  }

  // ── What every step keeps ─────────────────────────────────────────────────

  /** The target is one complete copy of some bytes, executable and ours. */
  predicate DestIsCopyOf(source: seq<Byte>, s: State) {
    && Dest in s.dir && s.dir[Dest].Regular? && s.dir[Dest].ino in s.files
    && IsCopy(s.files[s.dir[Dest].ino], source)
  }

  /** The target is one complete copy of the source of one of the runs. */
  ghost predicate DestIsCopy(sources: nat -> seq<Byte>, s: State) {
    exists run :: run in s.runs && DestIsCopyOf(sources(run), s)
  }

  /** The target is what it was at the start. */
  predicate DestIsOriginal(start: State, s: State) {
    && (Dest in s.dir <==> Dest in start.dir)
    && (Dest in s.dir ==> s.dir[Dest] == start.dir[Dest])
  }

  ghost predicate DestOk(sources: nat -> seq<Byte>, start: State, s: State) {
    DestIsOriginal(start, s) || DestIsCopy(sources, s)
  }

  /** The inode a run is still writing, if any. */
  function Writing(phase: Phase): Option<Ino> {
    match phase
    case CopyTo(ino) => Some(ino)
    case SetMode(ino) => Some(ino)
    case RenameTmp(ino) => Some(ino)
    case _ => None
  }

  /** The file a run writes is a prefix of its source, then all of it, then executable. */
  predicate Progress(source: seq<Byte>, file: File, phase: Phase) {
    && file.ours && file.content <= source
    && (!phase.CopyTo? ==> file.content == source)
    && (phase.RenameTmp? ==> file.mode == EXECUTABLE)
  }

  /** A run's own file: new since the start, under no name but its own temp name. */
  ghost predicate OwnFile(sources: nat -> seq<Byte>, start: State, s: State, run: nat, ino: Ino)
    requires run in s.runs
  {
    && ino in s.files && ino !in start.files
    && (forall n :: n in s.dir && s.dir[n] == Regular(ino) ==> n == Tmp(run))
    && (Tmp(run) in s.dir ==> s.dir[Tmp(run)] == Regular(ino))
    && Progress(sources(run), s.files[ino], s.runs[run])
  }

  /** What a run has learnt about the target still stands: once the metadata was an
      installed copy's, the target is a copy, or the original with that metadata. */
  ghost predicate RunOk(sources: nat -> seq<Byte>, start: State, s: State, run: nat)
    requires run in s.runs
  {
    match s.runs[run]
    case OpenDest => DestIsCopy(sources, s) || LooksInstalled(s, sources(run))
    case CompareDest(ino) => DestIsCopy(sources, s) || (LooksInstalled(s, sources(run)) && s.dir[Dest].ino == ino)
    case Finished(result) => result.Ok? ==> DestIsCopy(sources, s)
    case phase => Writing(phase).Some? ==> OwnFile(sources, start, s, run, Writing(phase).value)
  }

  ghost predicate Apart(s: State) {
    forall a, b :: a in s.runs && b in s.runs && a != b && Writing(s.runs[a]).Some? ==>
      Writing(s.runs[a]) != Writing(s.runs[b])
  }

  /** Names point at files that exist, and no file there at the start is ever written. */
  ghost predicate FilesOk(start: State, s: State) {
    && (forall n :: n in s.dir && s.dir[n].Regular? ==> s.dir[n].ino in s.files)
    && (forall ino :: ino in start.files ==> ino in s.files && s.files[ino] == start.files[ino])
  }

  ghost predicate Inv(sources: nat -> seq<Byte>, start: State, s: State) {
    && DestOk(sources, start, s) && Apart(s) && FilesOk(start, s)
    && (forall run :: run in s.runs ==> RunOk(sources, start, s, run))
  }

  /** The run an event belongs to; the sweeper's is nobody's. */
  function Actor(e: Event): Option<nat> {
    match e
    case Begin(run) => Some(run)
    case Look(run) => Some(run)
    case Open(run) => Some(run)
    case OpenFails(run) => Some(run)
    case Compare(run) => Some(run)
    case CompareFails(run) => Some(run)
    case Create(run, _, _) => Some(run)
    case CopySome(run, _) => Some(run)
    case CopyEnds(run) => Some(run)
    case Chmod(run) => Some(run)
    case Rename(run) => Some(run)
    case Fails(run) => Some(run)
    case Clean(run, _) => Some(run)
    case Crash(run) => Some(run)
    case Sweep(_) => None
  }

  /** The target's node and, if it is a plain file, its contents and mode are untouched. */
  predicate DestUntouched(s: State, after: State) {
    && (Dest in s.dir <==> Dest in after.dir)
    && (Dest in s.dir ==> after.dir[Dest] == s.dir[Dest])
    && (Dest in s.dir && s.dir[Dest].Regular? && s.dir[Dest].ino in s.files ==>
          s.dir[Dest].ino in after.files && after.files[s.dir[Dest].ino] == s.files[s.dir[Dest].ino])
  }

  lemma RenamePutsACopy(sources: nat -> seq<Byte>, start: State, s: State, run: nat)
    requires Inv(sources, start, s) && Enabled(sources, s, Rename(run))
    ensures DestIsCopyOf(sources(run), Next(sources, s, Rename(run)))
  {
    assert RunOk(sources, start, s, run);
  }

  /** No step but a rename touches the target, and a rename puts a complete copy there. */
  lemma DestStep(sources: nat -> seq<Byte>, start: State, s: State, e: Event)
    requires Inv(sources, start, s) && Enabled(sources, s, e)
    ensures if e.Rename? then DestIsCopyOf(sources(e.run), Next(sources, s, e)) else DestUntouched(s, Next(sources, s, e))
  {
    if e.Rename? {
      RenamePutsACopy(sources, start, s, e.run);
    } else if e.CopySome? || e.Chmod? {
      assert RunOk(sources, start, s, e.run);
    }
  }

  lemma FilesStep(sources: nat -> seq<Byte>, start: State, s: State, e: Event)
    requires Inv(sources, start, s) && Enabled(sources, s, e)
    ensures FilesOk(start, Next(sources, s, e))
  {
    if e.CopySome? || e.Chmod? || e.Rename? {
      assert RunOk(sources, start, s, e.run);
    }
  }

  lemma ApartStep(sources: nat -> seq<Byte>, start: State, s: State, e: Event)
    requires Inv(sources, start, s) && Enabled(sources, s, e)
    ensures Apart(Next(sources, s, e))
  {
    if e.Create? {
      forall run | run in s.runs && Writing(s.runs[run]).Some?
        ensures Writing(s.runs[run]).value != e.ino
      {
        assert RunOk(sources, start, s, run);
      }
    }
  }

  /** Another run's file is as it was: nobody else writes it or gives it a name. */
  lemma OwnFileStep(sources: nat -> seq<Byte>, start: State, s: State, e: Event, run: nat)
    requires Inv(sources, start, s) && Enabled(sources, s, e) && run in s.runs && Actor(e) != Some(run)
    requires Writing(s.runs[run]).Some?
    ensures OwnFile(sources, start, Next(sources, s, e), run, Writing(s.runs[run]).value)
  {
    assert RunOk(sources, start, s, run);
    var ino := Writing(s.runs[run]).value;
    match e
    case CopySome(actor, _) => assert Writing(s.runs[actor]) != Some(ino);
    case Chmod(actor) => assert Writing(s.runs[actor]) != Some(ino);
    case Rename(actor) =>
      assert RunOk(sources, start, s, actor);
      assert Writing(s.runs[actor]) != Some(ino);
    case _ =>
  }

  lemma OtherRunStep(sources: nat -> seq<Byte>, start: State, s: State, e: Event, run: nat)
    requires Inv(sources, start, s) && Enabled(sources, s, e) && run in s.runs && Actor(e) != Some(run)
    ensures run in Next(sources, s, e).runs && Next(sources, s, e).runs[run] == s.runs[run]
    ensures RunOk(sources, start, Next(sources, s, e), run)
  {
    assert RunOk(sources, start, s, run);
    DestStep(sources, start, s, e);
    if Writing(s.runs[run]).Some? {
      OwnFileStep(sources, start, s, e, run);
    }
  }

  lemma ActorStep(sources: nat -> seq<Byte>, start: State, s: State, e: Event, run: nat)
    requires Inv(sources, start, s) && Enabled(sources, s, e) && Actor(e) == Some(run)
    ensures run in Next(sources, s, e).runs && RunOk(sources, start, Next(sources, s, e), run)
  {
    if run in s.runs {
      assert RunOk(sources, start, s, run);
    }
    DestStep(sources, start, s, e);
  }

  lemma StepKeepsInv(sources: nat -> seq<Byte>, start: State, s: State, e: Event)
    requires Inv(sources, start, s) && Enabled(sources, s, e)
    ensures Inv(sources, start, Next(sources, s, e))
  {
    DestStep(sources, start, s, e);
    FilesStep(sources, start, s, e);
    ApartStep(sources, start, s, e);
    var after := Next(sources, s, e);
    forall run | run in after.runs
      ensures RunOk(sources, start, after, run)
    {
      if Actor(e) == Some(run) {
        ActorStep(sources, start, s, e, run);
      } else {
        OtherRunStep(sources, start, s, e, run);
      }
    }
  }

  /** Names that point at plain files point at files. */
  ghost predicate WellFormed(s: State) {
    forall n :: n in s.dir && s.dir[n].Regular? ==> s.dir[n].ino in s.files
  }

  lemma {:induction false} RunKeepsInv(sources: nat -> seq<Byte>, events: seq<Event>, states: seq<State>, n: nat)
    requires IsRun(sources, events, states) && n <= |events| && WellFormed(states[0])
    ensures Inv(sources, states[0], states[n])
  {
    if n > 0 {
      RunKeepsInv(sources, events, states, n - 1);
      StepKeepsInv(sources, states[0], states[n - 1], events[n - 1]);
    }
  }

  // ── The theorems ──────────────────────────────────────────────────────────

  /** At every moment of every interleaving of installers, sweeps and crashes the
      target is what it was at the start, with its bytes, or one complete executable
      copy of one run's source: never part of one, nor parts of two. */
  lemma NeverPartial(sources: nat -> seq<Byte>, events: seq<Event>, states: seq<State>, n: nat)
    requires IsRun(sources, events, states) && n <= |events| && WellFormed(states[0])
    ensures DestIsCopy(sources, states[n]) || DestUntouched(states[0], states[n])
  {
    RunKeepsInv(sources, events, states, n);
  }

  /** Once the target is a copy it stays one. */
  lemma {:induction false} CopyStays(sources: nat -> seq<Byte>, events: seq<Event>, states: seq<State>, from: nat, to: nat)
    requires IsRun(sources, events, states) && from <= to <= |events| && WellFormed(states[0])
    requires DestIsCopy(sources, states[from])
    ensures DestIsCopy(sources, states[to])
  {
    if from < to {
      CopyStays(sources, events, states, from, to - 1);
      RunKeepsInv(sources, events, states, to - 1);
      DestStep(sources, states[0], states[to - 1], events[to - 1]);
    }
  }

  /** From the moment a run answers, replaced or unchanged, the target is a complete
      copy, whatever the other runs, the sweeper and crashes do afterwards. */
  lemma AnswerMeansInstalled(
    sources: nat -> seq<Byte>, events: seq<Event>, states: seq<State>, run: nat, answered: nat, later: nat)
    requires IsRun(sources, events, states) && answered <= later <= |events| && WellFormed(states[0])
    requires run in states[answered].runs
    requires states[answered].runs[run].Finished? && states[answered].runs[run].result.Ok?
    ensures DestIsCopy(sources, states[later])
  {
    RunKeepsInv(sources, events, states, answered);
    assert RunOk(sources, states[0], states[answered], run);
    CopyStays(sources, events, states, answered, later);
  }

  /** The answer `Replaced` is given by a rename alone, and that rename put the run's
      own complete file in place. */
  lemma ReplacedMeansRenamed(sources: nat -> seq<Byte>, events: seq<Event>, states: seq<State>, run: nat, n: nat)
    requires IsRun(sources, events, states) && n < |events| && WellFormed(states[0])
    requires run in states[n + 1].runs && states[n + 1].runs[run] == Finished(Ok(Replaced))
    requires run !in states[n].runs || states[n].runs[run] != Finished(Ok(Replaced))
    ensures events[n] == Rename(run) && states[n].runs[run].RenameTmp?
    ensures Dest in states[n + 1].dir && states[n + 1].dir[Dest] == Regular(states[n].runs[run].ino)
    ensures DestIsCopyOf(sources(run), states[n + 1])
  {
    RunKeepsInv(sources, events, states, n);
    DestStep(sources, states[0], states[n], events[n]);
    var e := events[n];
    assert e == Rename(run);
    assert RunOk(sources, states[0], states[n], run);
  }

  /** The answer `Unchanged` is given after a comparison alone, and is true of the run's
      own source unless another file has taken the target's place since it was opened. */
  lemma UnchangedMeansOwn(sources: nat -> seq<Byte>, events: seq<Event>, states: seq<State>, run: nat, n: nat)
    requires IsRun(sources, events, states) && n < |events| && WellFormed(states[0])
    requires run in states[n + 1].runs && states[n + 1].runs[run] == Finished(Ok(Unchanged))
    requires run !in states[n].runs || states[n].runs[run] != Finished(Ok(Unchanged))
    ensures events[n] == Compare(run) && states[n].runs[run].CompareDest?
    ensures Dest in states[n + 1].dir && states[n + 1].dir[Dest] == Regular(states[n].runs[run].ino) ==>
      DestIsCopyOf(sources(run), states[n + 1])
  {
    RunKeepsInv(sources, events, states, n);
    DestStep(sources, states[0], states[n], events[n]);
    assert events[n] == Compare(run);
    assert RunOk(sources, states[0], states[n], run);
  }

  /** Installers of one source leave the target a copy of that. */
  lemma OneSource(source: seq<Byte>, sources: nat -> seq<Byte>, s: State)
    requires DestIsCopy(sources, s) && forall run :: run in s.runs ==> sources(run) == source
    ensures DestIsCopyOf(source, s)
  {
  }

  // ── Which names the sweeper takes ─────────────────────────────────────────

  const SUFFIX := ".tmp"

  function TmpName(name: string, id: string): string {
    "." + name + "." + id + SUFFIX
  }

  predicate Swept(name: string, file: string) {
    "." + name + "." <= file && |file| >= |SUFFIX| && file[|file| - |SUFFIX|..] == SUFFIX
  }

  /** The sweeper takes every temp name an installer of `name` can make, and never the
      installed file itself. */
  lemma SweeperNames(name: string, id: string)
    ensures Swept(name, TmpName(name, id)) && !Swept(name, name)
  {
    var tmp := TmpName(name, id);
    assert tmp == ("." + name + ".") + (id + SUFFIX) && tmp == ("." + name + "." + id) + SUFFIX;
  }
}
