/** Keeping an account folder's links in step with the Default home (`provision` and
    `link`, src-tauri/src/accounts.rs), alone and against another santree process.

    The shared names are the indices of `entries`. Every system call is one step, so
    another process can run between any two: stat, readlink, exists, unlink,
    symlink, and the readlink that rechecks after a lost race. */
module Provisioning {
  import opened Wrappers

  /** What an account folder holds under a shared name: nothing, a real file, the link
      to the Default home's entry of that name, or another link. */
  datatype Node = Absent | Real | RightLink | OtherLink

  /** Where a link belongs and is: what a pass leaves behind. */
  predicate Settled(node: Node, sourceExists: bool) {
    node.Real? || node == if sourceExists then RightLink else Absent
  }

  // ── One pass, alone ───────────────────────────────────────────────────────

  class AccountFolder {
    var entries: seq<Node>
    /** Names whose real file has been reported. */
    var warned: set<nat>

    constructor (entries: seq<Node>)
      ensures this.entries == entries && warned == {}
    {
      this.entries := entries;
      warned := {};
    }

    method RemoveFile(i: nat)
      requires i < |entries|
      modifies this`entries
      ensures entries == old(entries)[i := Absent]
    {
      entries := entries[i := Absent];
    }

    /** Finding the correct link already there counts as having made it; finding any
        other entry is an error. */
    method MakeLink(i: nat) returns (linked: Result<(), nat>)
      requires i < |entries|
      modifies this`entries
      ensures linked == if old(entries)[i] in {Absent, RightLink} then Ok(()) else Err(i)
      ensures entries == if old(entries)[i].Absent? then old(entries)[i := RightLink] else old(entries)
    {
      if entries[i].Absent? {
        entries := entries[i := RightLink];
        return Ok(());
      }
      if entries[i] == RightLink {
        return Ok(());
      }
      return Err(i);
    }

    /** A pass: with nobody else running it never fails; every real entry is left and
        reported, every other name becomes the correct link, or nothing when there is
        nothing to link to. */
    method Provision(sources: set<nat>) returns (done: Result<(), nat>)
      modifies this
      ensures done.Ok? && |entries| == |old(entries)|
      ensures forall i :: 0 <= i < |entries| ==>
        Settled(entries[i], i in sources) && (entries[i].Real? <==> old(entries)[i].Real?)
      ensures forall i :: i in warned <==>
        i in old(warned) || (0 <= i < |entries| && entries[i].Real?)
    {
      var i := 0;
      while i < |entries|
        invariant i <= |entries| == |old(entries)|
        invariant forall j :: 0 <= j < i ==>
          Settled(entries[j], j in sources) && (entries[j].Real? <==> old(entries)[j].Real?)
        invariant forall j :: i <= j < |entries| ==> entries[j] == old(entries)[j]
        invariant forall j :: j in warned <==> j in old(warned) || (0 <= j < i && entries[j].Real?)
      {
        match entries[i] {
          case Real =>
            warned := warned + {i};
            i := i + 1;
            continue;
          case Absent =>
          case link =>
            if link == RightLink && i in sources {
              i := i + 1;
              continue;
            }
            RemoveFile(i);
        }
        if i in sources {
          var linked := MakeLink(i);
          if linked.Err? {
            return linked;
          }
        }
        i := i + 1;
      }
      return Ok(());
    }
  }

  // ── Processes racing on the same folder ───────────────────────────────────

  /** What a process is about to do at a name. */
  datatype Spot =
    | Elsewhere
    | LookAt        // symlink_metadata
    | ReadTarget    // it is a link: read_link
    | CheckTarget   // the link is correct: source.exists()
    | Remove        // remove_file
    | CheckSource   // nothing there now: source.exists()
    | MakeLink      // symlink
    | Verify        // it exists already: read_link again

  datatype Process = Idle | At(name: nat, spot: Spot) | Failed(name: nat)

  /** `finished` holds the names some pass has got past, `passes` counts whole passes. */
  datatype World = World(
    entries: seq<Node>,
    sources: set<nat>,
    processes: seq<Process>,
    finished: set<nat>,
    passes: nat)

  /** What one system call does at a name: on to the next call, past the name, or an error. */
  datatype Outcome = Goes(node: Node, spot: Spot) | Past(node: Node) | Fails

  function Act(node: Node, sourceExists: bool, spot: Spot): Outcome {
    match spot
    case Elsewhere => Goes(node, Elsewhere)
    case LookAt =>
      (match node
       case Real => Past(node)
       case Absent => Goes(node, CheckSource)
       case _ => Goes(node, ReadTarget))
    case ReadTarget => Goes(node, if node == RightLink then CheckTarget else Remove)
    case CheckTarget => if sourceExists then Past(node) else Goes(node, Remove)
    case Remove => Goes(Absent, CheckSource)
    case CheckSource => if sourceExists then Goes(node, MakeLink) else Past(node)
    case MakeLink => if node.Absent? then Past(RightLink) else Goes(node, Verify)
    case Verify => if node == RightLink then Past(node) else Fails
  }

  /** One system call of process `p` at its name `i`. */
  function NextAt(w: World, p: nat, i: nat, outcome: Outcome): World
    requires p < |w.processes| && i < |w.entries|
  {
    match outcome
    case Goes(node, spot) =>
      w.(entries := w.entries[i := node], processes := w.processes[p := At(i, spot)])
    case Past(node) =>
      var last := i + 1 == |w.entries|;
      World(w.entries[i := node], w.sources, w.processes[p := if last then Idle else At(i + 1, LookAt)],
            w.finished + {i}, if last then w.passes + 1 else w.passes)
    case Fails =>
      w.(processes := w.processes[p := Failed(i)])
  }

  /** One step of process `p`. Starting a pass creates the always-shared source. */
  function Next(always: nat, w: World, p: nat): (after: World)
    ensures |after.processes| == |w.processes|
  {
    if p >= |w.processes| then w
    else
      match w.processes[p]
      case Failed(_) => w
      case Idle =>
        if w.entries == [] then w
        else w.(sources := w.sources + {always}, processes := w.processes[p := At(0, LookAt)])
      case At(i, spot) =>
        if i >= |w.entries| then w
        else NextAt(w, p, i, Act(w.entries[i], i in w.sources, spot))
  }

  /** The world after a schedule: who takes the next step, and who the next. */
  function Run(always: nat, w: World, schedule: seq<nat>): (after: World)
    ensures |after.processes| == |w.processes|
  {
    if schedule == [] then w
    else Next(always, Run(always, w, schedule[..|schedule| - 1]), schedule[|schedule| - 1])
  }

  // ── The invariant of one name and two processes ───────────────────────────

  predicate AboutToLink(spot: Spot) {
    spot.CheckSource? || spot.MakeLink?
  }

  /** What `a` has seen of the name still holds, whatever `b` is doing there. */
  predicate SpotOk(node: Node, exists_: bool, a: Spot, b: Spot) {
    && (!a.Elsewhere? && !a.LookAt? ==> !node.Real?)
    && (a.CheckTarget? || AboutToLink(a) || a.Verify? ==> node != OtherLink)
    && (a.MakeLink? || a.Verify? ==> exists_)
    && (a.CheckSource? && !exists_ ==> node.Absent?)
    && (AboutToLink(a) && b.Remove? && exists_ ==> node.Absent?)
    && (a.Verify? ==> node == RightLink && !b.Remove?)
    && (a.CheckTarget? && exists_ ==> node == RightLink || (node.Absent? && AboutToLink(b)))
  }

  /** A name, and where the two processes are at it. A name some pass got past is
      settled, or someone who removed its link is about to make it again. */
  predicate NameOk(original: Node, node: Node, exists_: bool, finished: bool, a: Spot, b: Spot) {
    && (node.Real? <==> original.Real?)
    && SpotOk(node, exists_, a, b) && SpotOk(node, exists_, b, a)
    && (finished ==> Settled(node, exists_) || (exists_ && node.Absent? && (AboutToLink(a) || AboutToLink(b))))
  }

  function SpotOf(process: Process, i: nat): Spot {
    if process.At? && process.name == i then process.spot else Elsewhere
  }

  predicate NameOkIn(original: seq<Node>, w: World, i: nat)
    requires i < |w.entries| == |original| && |w.processes| == 2
  {
    NameOk(original[i], w.entries[i], i in w.sources, i in w.finished,
           SpotOf(w.processes[0], i), SpotOf(w.processes[1], i))
  }

  /** A pass has finished every name before the one it is at. */
  ghost predicate ProcessOk(w: World, always: nat, process: Process) {
    match process
    case Idle => true
    case Failed(_) => false
    case At(i, spot) =>
      i < |w.entries| && !spot.Elsewhere? && always in w.sources && forall j :: 0 <= j < i ==> j in w.finished
  }

  ghost predicate Inv(always: nat, original: seq<Node>, w: World) {
    && |w.processes| == 2 && |w.entries| == |original|
    && (forall p :: 0 <= p < 2 ==> ProcessOk(w, always, w.processes[p]))
    && (forall i :: 0 <= i < |w.entries| ==> NameOkIn(original, w, i))
    && (w.finished != {} || w.passes > 0 ==> always in w.sources)
    && (w.passes > 0 ==> forall i :: 0 <= i < |w.entries| ==> i in w.finished)
  }

  /** What the process at `a` does next keeps the name, and does not fail. */
  predicate ActKeeps(original: Node, node: Node, exists_: bool, finished: bool, a: Spot, b: Spot) {
    match Act(node, exists_, a)
    case Goes(after, spot) => NameOk(original, after, exists_, finished, spot, b)
    case Past(after) => NameOk(original, after, exists_, true, Elsewhere, b)
    case Fails => false
  }

  lemma AwayKeepsName(original: Node, node: Node, exists_: bool, finished: bool, b: Spot)
    requires NameOk(original, node, exists_, finished, Elsewhere, b)
    ensures ActKeeps(original, node, exists_, finished, Elsewhere, b)
  {
  }

  lemma LookingKeepsName(original: Node, node: Node, exists_: bool, finished: bool, b: Spot)
    requires NameOk(original, node, exists_, finished, LookAt, b)
    ensures ActKeeps(original, node, exists_, finished, LookAt, b)
  {
    if node.Real? {
      assert Act(node, exists_, LookAt) == Past(node);
    } else if node.Absent? {
      assert Act(node, exists_, LookAt) == Goes(node, CheckSource);
    } else {
      assert Act(node, exists_, LookAt) == Goes(node, ReadTarget);
    }
  }

  lemma ReadingKeepsName(original: Node, node: Node, exists_: bool, finished: bool, b: Spot)
    requires NameOk(original, node, exists_, finished, ReadTarget, b)
    ensures ActKeeps(original, node, exists_, finished, ReadTarget, b)
  {
    if node == RightLink {
      assert Act(node, exists_, ReadTarget) == Goes(node, CheckTarget);
    } else {
      assert Act(node, exists_, ReadTarget) == Goes(node, Remove);
    }
  }

  lemma CheckingKeepsName(original: Node, node: Node, exists_: bool, finished: bool, a: Spot, b: Spot)
    requires NameOk(original, node, exists_, finished, a, b) && (a.CheckTarget? || a.CheckSource?)
    ensures ActKeeps(original, node, exists_, finished, a, b)
  {
    if a.CheckTarget? {
      assert Act(node, exists_, a) == if exists_ then Past(node) else Goes(node, Remove);
    } else {
      assert Act(node, exists_, a) == if exists_ then Goes(node, MakeLink) else Past(node);
    }
  }

  lemma RemovingKeepsName(original: Node, node: Node, exists_: bool, finished: bool, b: Spot)
    requires NameOk(original, node, exists_, finished, Remove, b)
    ensures ActKeeps(original, node, exists_, finished, Remove, b)
  {
    assert Act(node, exists_, Remove) == Goes(Absent, CheckSource);
  }

  lemma LinkingKeepsName(original: Node, node: Node, exists_: bool, finished: bool, b: Spot)
    requires NameOk(original, node, exists_, finished, MakeLink, b)
    ensures ActKeeps(original, node, exists_, finished, MakeLink, b)
  {
    if node.Absent? {
      assert Act(node, exists_, MakeLink) == Past(RightLink);
    } else {
      assert node == RightLink && Act(node, exists_, MakeLink) == Goes(node, Verify);
    }
  }

  lemma VerifyingKeepsName(original: Node, node: Node, exists_: bool, finished: bool, b: Spot)
    requires NameOk(original, node, exists_, finished, Verify, b)
    ensures ActKeeps(original, node, exists_, finished, Verify, b)
  {
    assert node == RightLink && Act(node, exists_, Verify) == Past(node);
    assert SpotOk(node, exists_, Elsewhere, b) && SpotOk(node, exists_, b, Elsewhere);
  }

  /** One system call at a name, by either process, keeps what both have seen true,
      and never fails: every case of two processes at one name. */
  lemma ActKeepsName(original: Node, node: Node, exists_: bool, finished: bool, a: Spot, b: Spot)
    requires NameOk(original, node, exists_, finished, a, b)
    ensures ActKeeps(original, node, exists_, finished, a, b)
  {
    hide NameOk, ActKeeps;
    match a
    case Elsewhere => AwayKeepsName(original, node, exists_, finished, b);
    case LookAt => LookingKeepsName(original, node, exists_, finished, b);
    case ReadTarget => ReadingKeepsName(original, node, exists_, finished, b);
    case CheckTarget => CheckingKeepsName(original, node, exists_, finished, a, b);
    case CheckSource => CheckingKeepsName(original, node, exists_, finished, a, b);
    case Remove => RemovingKeepsName(original, node, exists_, finished, b);
    case MakeLink => LinkingKeepsName(original, node, exists_, finished, b);
    case Verify => VerifyingKeepsName(original, node, exists_, finished, b);
  }

  /** Reaching a name, or leaving it, says nothing about it. */
  lemma ArrivingKeepsName(original: Node, node: Node, exists_: bool, finished: bool, b: Spot)
    requires NameOk(original, node, exists_, finished, Elsewhere, b)
    ensures NameOk(original, node, exists_, finished, LookAt, b)
  {
  }

  lemma NameIsSymmetric(original: Node, node: Node, exists_: bool, finished: bool, a: Spot, b: Spot)
    ensures NameOk(original, node, exists_, finished, a, b) == NameOk(original, node, exists_, finished, b, a)
  {
  }

  /** `NameOkIn` with the stepping process first. */
  predicate NameOkFrom(original: seq<Node>, w: World, p: nat, i: nat)
    requires i < |w.entries| == |original| && |w.processes| == 2 && p < 2
  {
    NameOk(original[i], w.entries[i], i in w.sources, i in w.finished,
           SpotOf(w.processes[p], i), SpotOf(w.processes[1 - p], i))
  }

  lemma FromEither(original: seq<Node>, w: World, p: nat, i: nat)
    requires i < |w.entries| == |original| && |w.processes| == 2 && p < 2
    ensures NameOkIn(original, w, i) == NameOkFrom(original, w, p, i)
  {
    NameIsSymmetric(original[i], w.entries[i], i in w.sources, i in w.finished,
                    SpotOf(w.processes[0], i), SpotOf(w.processes[1], i));
  }

  lemma StepKeepsNames(always: nat, original: seq<Node>, w: World, p: nat, i: nat)
    requires Inv(always, original, w) && p < 2 && w.processes[p].At? && i < |w.entries|
    ensures |Next(always, w, p).entries| == |original| && NameOkIn(original, Next(always, w, p), i)
  {
    var at, spot := w.processes[p].name, w.processes[p].spot;
    assert ProcessOk(w, always, w.processes[p]);
    FromEither(original, w, p, i);
    FromEither(original, Next(always, w, p), p, i);
    var b := SpotOf(w.processes[1 - p], i);
    if i == at {
      ActKeepsName(original[i], w.entries[i], i in w.sources, i in w.finished, spot, b);
    } else {
      ArrivingKeepsName(original[i], w.entries[i], i in w.sources, i in w.finished, b);
    }
  }

  lemma StartKeepsNames(always: nat, original: seq<Node>, w: World, p: nat, i: nat)
    requires Inv(always, original, w) && p < 2 && w.processes[p].Idle? && i < |w.entries|
    ensures NameOkIn(original, Next(always, w, p), i)
  {
    FromEither(original, w, p, i);
    FromEither(original, Next(always, w, p), p, i);
    assert NameOkIn(original, w, i);
    assert ProcessOk(w, always, w.processes[1 - p]);
    StartKeepsName(always, original, w, p, i);
  }

  lemma StartKeepsName(always: nat, original: seq<Node>, w: World, p: nat, i: nat)
    requires |w.processes| == 2 && p < 2 && w.processes[p].Idle? && i < |w.entries| == |original|
    requires ProcessOk(w, always, w.processes[1 - p]) && NameOkFrom(original, w, p, i)
    requires i in w.finished ==> always in w.sources
    ensures NameOkFrom(original, Next(always, w, p), p, i)
  {
    var b := SpotOf(w.processes[1 - p], i);
    if always in w.sources {
      assert w.sources + {always} == w.sources;
    } else {
      assert b.Elsewhere?;
    }
    ArrivingKeepsName(original[i], w.entries[i], i in w.sources, i in w.finished, b);
  }

  lemma StepKeepsProcesses(always: nat, original: seq<Node>, w: World, p: nat, q: nat)
    requires Inv(always, original, w) && p < 2 && q < 2
    ensures ProcessOk(Next(always, w, p), always, Next(always, w, p).processes[q])
  {
    assert ProcessOk(w, always, w.processes[p]) && ProcessOk(w, always, w.processes[q]);
    if w.processes[p].At? {
      var i := w.processes[p].name;
      FromEither(original, w, p, i);
      assert NameOkIn(original, w, i);
      ActKeepsName(original[i], w.entries[i], i in w.sources, i in w.finished,
                   w.processes[p].spot, SpotOf(w.processes[1 - p], i));
    }
  }

  lemma StepKeepsInv(always: nat, original: seq<Node>, w: World, p: nat)
    requires Inv(always, original, w) && p < 2
    ensures Inv(always, original, Next(always, w, p))
  {
    var after := Next(always, w, p);
    assert ProcessOk(w, always, w.processes[p]);
    forall q | 0 <= q < 2
      ensures ProcessOk(after, always, after.processes[q])
    {
      StepKeepsProcesses(always, original, w, p, q);
    }
    forall i | 0 <= i < |w.entries|
      ensures |after.entries| == |original| && NameOkIn(original, after, i)
    {
      if w.processes[p].At? {
        StepKeepsNames(always, original, w, p, i);
      } else {
        StartKeepsNames(always, original, w, p, i);
      }
    }
  }

  lemma {:induction false} RunKeepsInv(always: nat, original: seq<Node>, w: World, schedule: seq<nat>)
    requires Inv(always, original, w)
    ensures Inv(always, original, Run(always, w, schedule))
  {
    if schedule != [] {
      var last := |schedule| - 1;
      RunKeepsInv(always, original, w, schedule[..last]);
      if schedule[last] < 2 {
        StepKeepsInv(always, original, Run(always, w, schedule[..last]), schedule[last]);
      }
    }
  }

  /** Two processes that have not started, over any folder and any sources. */
  function Start(entries: seq<Node>, sources: set<nat>, processes: nat): World {
    World(entries, sources, seq(processes, _ => Idle), {}, 0)
  }

  /** Two santree processes, any number of passes each, any interleaving of their
      system calls: neither ever fails on an entry, and what the CLI made real stays. */
  lemma TwoProcessesNeverFail(always: nat, entries: seq<Node>, sources: set<nat>, schedule: seq<nat>)
    ensures var w := Run(always, Start(entries, sources, 2), schedule);
      && !w.processes[0].Failed? && !w.processes[1].Failed?
      && |w.entries| == |entries|
      && forall i :: 0 <= i < |entries| ==> (w.entries[i].Real? <==> entries[i].Real?)
  {
    RunKeepsInv(always, entries, Start(entries, sources, 2), schedule);
    var w := Run(always, Start(entries, sources, 2), schedule);
    assert ProcessOk(w, always, w.processes[0]) && ProcessOk(w, always, w.processes[1]);
    forall i | 0 <= i < |entries|
      ensures w.entries[i].Real? <==> entries[i].Real?
    {
      assert NameOkIn(entries, w, i);
    }
  }

  /** Once both are idle and some pass has completed, every name is settled: a real
      file, the correct link where there is a source, or nothing. */
  lemma QuiescentIsSettled(always: nat, entries: seq<Node>, sources: set<nat>, schedule: seq<nat>)
    ensures var w := Run(always, Start(entries, sources, 2), schedule);
      w.passes > 0 && w.processes == [Idle, Idle] ==>
        AllSettled(w) && always in w.sources
  {
    RunKeepsInv(always, entries, Start(entries, sources, 2), schedule);
    var w := Run(always, Start(entries, sources, 2), schedule);
    if w.passes > 0 && w.processes == [Idle, Idle] {
      forall i | 0 <= i < |w.entries|
        ensures Settled(w.entries[i], i in w.sources)
      {
        assert NameOkIn(entries, w, i);
      }
    }
  }

  ghost predicate AllSettled(w: World) {
    forall i :: 0 <= i < |w.entries| ==> Settled(w.entries[i], i in w.sources)
  }

  // ── Further passes change nothing ─────────────────────────────────────────

  /** A process that only looks: it never gets as far as removing or linking. */
  predicate OnlyLooks(w: World, process: Process) {
    match process
    case Idle => true
    case Failed(_) => false
    case At(i, spot) =>
      && i < |w.entries|
      && match spot
         case LookAt => true
         case ReadTarget => w.entries[i] == RightLink
         case CheckTarget => w.entries[i] == RightLink && i in w.sources
         case CheckSource => i !in w.sources
         case _ => false
  }

  ghost predicate Undisturbed(always: nat, w: World) {
    && AllSettled(w) && always in w.sources
    && forall p :: 0 <= p < |w.processes| ==> OnlyLooks(w, w.processes[p])
  }

  lemma LookingChangesNothing(always: nat, w: World, p: nat)
    requires Undisturbed(always, w) && p < |w.processes|
    ensures Undisturbed(always, Next(always, w, p))
    ensures Next(always, w, p).entries == w.entries && Next(always, w, p).sources == w.sources
  {
    assert OnlyLooks(w, w.processes[p]);
    var after := Next(always, w, p);
    assert after.sources == w.sources;
    forall q | 0 <= q < |after.processes|
      ensures OnlyLooks(after, after.processes[q])
    {
      assert OnlyLooks(w, w.processes[q]);
      if q == p && w.processes[p].At? {
        assert Settled(w.entries[w.processes[p].name], w.processes[p].name in w.sources);
      }
    }
  }

  /** From a settled folder any number of passes, by any number of processes in any
      interleaving, change no entry and never fail. */
  lemma {:induction false} FurtherPassesChangeNothing(always: nat, w: World, schedule: seq<nat>)
    requires AllSettled(w) && always in w.sources
    requires forall p :: 0 <= p < |w.processes| ==> w.processes[p] == Idle
    ensures var after := Run(always, w, schedule);
      && Undisturbed(always, after) && after.entries == w.entries && after.sources == w.sources
      && forall p :: 0 <= p < |after.processes| ==> !after.processes[p].Failed?
  {
    if schedule != [] {
      var last := |schedule| - 1;
      FurtherPassesChangeNothing(always, w, schedule[..last]);
      if schedule[last] < |w.processes| {
        LookingChangesNothing(always, Run(always, w, schedule[..last]), schedule[last]);
      }
    }
    var after := Run(always, w, schedule);
    assert forall p :: 0 <= p < |after.processes| ==> OnlyLooks(after, after.processes[p]);
  }

  // ── Passes end ────────────────────────────────────────────────────────────

  function StepsLeftAt(spot: Spot): nat {
    match spot
    case LookAt => 7
    case ReadTarget => 6
    case CheckTarget => 5
    case Remove => 4
    case CheckSource => 3
    case MakeLink => 2
    case Verify => 1
    case Elsewhere => 0
  }

  /** A bound on the steps a process still needs to end its pass. */
  function StepsLeft(w: World, process: Process): nat {
    match process
    case At(i, spot) => if i < |w.entries| then 7 * (|w.entries| - i - 1) + StepsLeftAt(spot) else 0
    case _ => 0
  }

  /** Whatever the others do in between, each own step brings a process nearer the end
      of its pass, and nobody else's step sets it back. */
  lemma PassesEnd(always: nat, w: World, p: nat, q: nat)
    requires p < |w.processes| && q < |w.processes|
    requires w.processes[p].At? && w.processes[p].name < |w.entries| && !w.processes[p].spot.Elsewhere?
    ensures StepsLeft(Next(always, w, p), Next(always, w, p).processes[p]) < StepsLeft(w, w.processes[p])
    ensures q != p ==> StepsLeft(Next(always, w, q), Next(always, w, q).processes[p]) == StepsLeft(w, w.processes[p])
  {
  }

  // ── The CLI replaces a link ───────────────────────────────────────────────

  /** The CLI puts a file of its own where a link was. */
  function CliReplaces(w: World, i: nat): World
    requires i < |w.entries|
  {
    w.(entries := w.entries[i := Real])
  }

  /** The process has seen a link at `i` and will remove what is there without looking at
      what it is again. */
  predicate WillRemove(w: World, process: Process, i: nat) {
    process.At? && process.name == i &&
    (process.spot.ReadTarget? || process.spot.Remove? || (process.spot.CheckTarget? && i !in w.sources))
  }

  ghost predicate LeftAlone(w: World, i: nat) {
    i < |w.entries| && w.entries[i].Real? && forall p :: 0 <= p < |w.processes| ==> !WillRemove(w, w.processes[p], i)
  }

  lemma StepLeavesAlone(always: nat, w: World, i: nat, p: nat)
    requires LeftAlone(w, i)
    ensures LeftAlone(Next(always, w, p), i)
  {
    var after := Next(always, w, p);
    assert |after.entries| == |w.entries| && w.sources <= after.sources;
    forall q | 0 <= q < |after.processes|
      ensures !WillRemove(after, after.processes[q], i)
    {
      assert !WillRemove(w, w.processes[q], i);
    }
  }

  lemma {:induction false} RunLeavesAlone(always: nat, w: World, i: nat, schedule: seq<nat>)
    requires LeftAlone(w, i)
    ensures LeftAlone(Run(always, w, schedule), i)
  {
    if schedule != [] {
      var last := |schedule| - 1;
      RunLeavesAlone(always, w, i, schedule[..last]);
      StepLeavesAlone(always, Run(always, w, schedule[..last]), i, schedule[last]);
    }
  }

  ghost predicate Lost(w: World, i: nat) {
    i < |w.entries| && !w.entries[i].Real?
  }

  lemma TwoSteps(always: nat, w: World, p: nat)
    ensures Run(always, w, [p]) == Next(always, w, p)
    ensures Run(always, w, [p, p]) == Next(always, Next(always, w, p), p)
  {
    assert [p][..0] == [] && [p, p][..1] == [p];
  }

  /** A file the CLI has just put in a link's place can be lost to some interleaving if and
      only if a process was past its look at the link and about to remove it: the check
      that spares real files and the removal are two calls. */
  lemma CliFileIsLost(always: nat, w: World, i: nat)
    requires i < |w.entries|
    ensures (exists schedule :: Lost(Run(always, CliReplaces(w, i), schedule), i)) <==>
            exists p :: 0 <= p < |w.processes| && WillRemove(w, w.processes[p], i)
  {
    var made := CliReplaces(w, i);
    if p :| 0 <= p < |w.processes| && WillRemove(w, w.processes[p], i) {
      TwoSteps(always, made, p);
      var one := Next(always, made, p);
      if w.processes[p].spot.Remove? {
        assert Lost(Run(always, made, [p]), i);
      } else {
        assert one.processes[p] == At(i, Remove);
        assert Lost(Run(always, made, [p, p]), i);
      }
    } else {
      forall schedule
        ensures !Lost(Run(always, made, schedule), i)
      {
        RunLeavesAlone(always, made, i, schedule);
      }
    }
  }

  /** One process alone can do it, two calls into its first pass. */
  lemma CliFileCanBeLost()
    ensures var w := Run(0, Start([RightLink], {0}, 1), [0, 0]);
      w.entries == [RightLink] && Lost(Run(0, CliReplaces(w, 0), [0, 0]), 0)
  {
    var start := Start([RightLink], {0}, 1);
    TwoSteps(0, start, 0);
    var w := Run(0, start, [0, 0]);
    TwoSteps(0, CliReplaces(w, 0), 0);
  }

  // ── Three processes ───────────────────────────────────────────────────────

  /** The tolerance is for one other process: with three, the one that is about to
      remove a link it saw wrong can remove the right one just before a second, which
      lost the race to make it, checks it. */
  lemma ThreeProcessesCanFail() returns (schedule: seq<nat>)
    ensures Within(schedule, 3)
    ensures Run(0, Start([OtherLink], {0}, 3), schedule).processes[0] == Failed(0)
  {
    var start := Start([OtherLink], {0}, 3);
    assert start == Racing(OtherLink, Idle, Idle, Idle, {}, 0);
    var s, w := StepsBy(start, [], start, 2, 3);
    ThirdDecides();
    s, w := StepsBy(start, s, w, 0, 5);
    FirstRemoves();
    s, w := StepsBy(start, s, w, 1, 4);
    SecondLinks();
    s, w := StepsBy(start, s, w, 0, 1);
    s, w := StepsBy(start, s, w, 2, 1);
    s, w := StepsBy(start, s, w, 0, 1);
    FirstFails();
    schedule := s;
  }

  /** The steps are all of the first `n` processes. */
  predicate Within(schedule: seq<nat>, n: nat) {
    forall i :: 0 <= i < |schedule| ==> schedule[i] < n
  }

  function With(w: World, more: seq<Process>): World {
    w.(processes := w.processes + more)
  }

  lemma StepAmongMore(always: nat, w: World, more: seq<Process>, p: nat)
    requires p < |w.processes|
    ensures Next(always, With(w, more), p) == With(Next(always, w, p), more)
  {
    var stepped := Next(always, w, p).processes[p];
    assert (w.processes + more)[p := stepped] == w.processes[p := stepped] + more;
  }

  lemma {:induction false} RunAmongMore(always: nat, w: World, more: seq<Process>, schedule: seq<nat>)
    requires Within(schedule, |w.processes|)
    ensures Run(always, With(w, more), schedule) == With(Run(always, w, schedule), more)
  {
    if schedule != [] {
      var last := |schedule| - 1;
      RunAmongMore(always, w, more, schedule[..last]);
      StepAmongMore(always, Run(always, w, schedule[..last]), more, schedule[last]);
    }
  }

  ghost predicate NoneFailed(w: World) {
    forall p :: 0 <= p < |w.processes| ==> !w.processes[p].Failed?
  }

  /** No folder, no sources and no interleaving make any of `n` processes fail. */
  ghost predicate Safe(n: nat) {
    forall always, entries, sources, schedule :: NoneFailed(Run(always, Start(entries, sources, n), schedule))
  }

  /** Of two or more processes sharing a folder, exactly two are safe. */
  lemma ExactlyTwoAreSafe(n: nat)
    requires n >= 2
    ensures Safe(n) <==> n == 2
  {
    if n == 2 {
      forall always, entries, sources, schedule
        ensures NoneFailed(Run(always, Start(entries, sources, n), schedule))
      {
        TwoProcessesNeverFail(always, entries, sources, schedule);
      }
    } else {
      var schedule := ThreeProcessesCanFail();
      var three, more := Start([OtherLink], {0}, 3), seq(n - 3, _ => Idle);
      RunAmongMore(0, three, more, schedule);
      assert Start([OtherLink], {0}, n) == With(three, more);
      var failed := Run(0, Start([OtherLink], {0}, n), schedule);
      assert failed.processes[0] == Failed(0);
      assert !NoneFailed(failed);
    }
  }

  function Racing(node: Node, a: Process, b: Process, c: Process, finished: set<nat>, passes: nat): World {
    World([node], {0}, [a, b, c], finished, passes)
  }

  lemma ThirdDecides()
    ensures Repeated(0, Racing(OtherLink, Idle, Idle, Idle, {}, 0), 2, 3) ==
            Racing(OtherLink, Idle, Idle, At(0, Remove), {}, 0)
  {
    var w1 := Racing(OtherLink, Idle, Idle, At(0, LookAt), {}, 0);
    assert Next(0, Racing(OtherLink, Idle, Idle, Idle, {}, 0), 2) == w1;
    assert Next(0, w1, 2) == Racing(OtherLink, Idle, Idle, At(0, ReadTarget), {}, 0);
  }

  lemma FirstRemoves()
    ensures Repeated(0, Racing(OtherLink, Idle, Idle, At(0, Remove), {}, 0), 0, 5) ==
            Racing(Absent, At(0, MakeLink), Idle, At(0, Remove), {}, 0)
  {
    var w1 := Racing(OtherLink, At(0, LookAt), Idle, At(0, Remove), {}, 0);
    assert Next(0, Racing(OtherLink, Idle, Idle, At(0, Remove), {}, 0), 0) == w1;
    var w2 := Racing(OtherLink, At(0, ReadTarget), Idle, At(0, Remove), {}, 0);
    assert Next(0, w1, 0) == w2;
    var w3 := Racing(OtherLink, At(0, Remove), Idle, At(0, Remove), {}, 0);
    assert Next(0, w2, 0) == w3;
    assert Next(0, w3, 0) == Racing(Absent, At(0, CheckSource), Idle, At(0, Remove), {}, 0);
  }

  lemma SecondLinks()
    ensures Repeated(0, Racing(Absent, At(0, MakeLink), Idle, At(0, Remove), {}, 0), 1, 4) ==
            Racing(RightLink, At(0, MakeLink), Idle, At(0, Remove), {0}, 1)
  {
    var w1 := Racing(Absent, At(0, MakeLink), At(0, LookAt), At(0, Remove), {}, 0);
    assert Next(0, Racing(Absent, At(0, MakeLink), Idle, At(0, Remove), {}, 0), 1) == w1;
    var w2 := Racing(Absent, At(0, MakeLink), At(0, CheckSource), At(0, Remove), {}, 0);
    assert Next(0, w1, 1) == w2;
    assert Next(0, w2, 1) == Racing(Absent, At(0, MakeLink), At(0, MakeLink), At(0, Remove), {}, 0);
  }

  lemma FirstFails()
    ensures var w := Racing(RightLink, At(0, MakeLink), Idle, At(0, Remove), {0}, 1);
      Repeated(0, Repeated(0, Repeated(0, w, 0, 1), 2, 1), 0, 1).processes[0] == Failed(0)
  {
    var w := Racing(RightLink, At(0, MakeLink), Idle, At(0, Remove), {0}, 1);
    var w1 := Racing(RightLink, At(0, Verify), Idle, At(0, Remove), {0}, 1);
    assert Next(0, w, 0) == w1;
    assert Next(0, w1, 2) == Racing(Absent, At(0, Verify), Idle, At(0, CheckSource), {0}, 1);
  }

  /** `count` steps in a row by one process. */
  function Repeated(always: nat, w: World, p: nat, count: nat): World
    decreases count
  {
    if count == 0 then w else Repeated(always, Next(always, w, p), p, count - 1)
  }

  lemma {:induction false} StepsBy(start: World, before: seq<nat>, w: World, p: nat, count: nat)
    returns (schedule: seq<nat>, after: World)
    requires w == Run(0, start, before) && Within(before, 3) && p < 3
    ensures Within(schedule, 3)
    ensures after == Run(0, start, schedule) == Repeated(0, w, p, count)
    decreases count
  {
    if count == 0 {
      schedule, after := before, w;
    } else {
      assert (before + [p])[..|before|] == before;
      schedule, after := StepsBy(start, before + [p], Next(0, w, p), p, count - 1);
    }
  }
}
