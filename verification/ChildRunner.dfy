/** Running a headless helper with its prompt on stdin and both outputs captured
    (`run_with_timeout` and `Drain`, src-tauri/src/agent.rs): a feeder thread, two
    draining threads, a polling parent, three bounded pipes, and a child that is any
    program at all and may leave descendants holding the pipes.

    Time is a count of milliseconds that passes only when the parent has nothing it
    must do now: a thread that is due is not kept waiting. */
module ChildRunner {
  import opened Bytes
  import opened Wrappers

  const READER_GRACE: nat := 2000
  const POLL_INTERVAL: nat := 50
  const CHUNK: nat := 8 * 1024

  type Pid = nat

  /** The direct child; every other process is a descendant it forked. */
  const CHILD: Pid := 0

  /** One output pipe and the thread draining it. `chunk` has been read and not yet
      appended to the shared `buf`; `taken` is what `Drain::take` returned, and
      `tookWhole` whether the reader had reported EOF by then. `written` remembers
      everything ever written. */
  datatype Channel = Channel(
    pipe: seq<Byte>, writers: set<Pid>, chunk: seq<Byte>, buf: seq<Byte>,
    eof: bool, taken: Option<seq<Byte>>, tookWhole: bool, written: seq<Byte>)

  /** The stdin pipe and the thread feeding it; `read` remembers what was read from it. */
  datatype Feed = Feed(left: seq<Byte>, open: bool, broken: bool, pipe: seq<Byte>, readers: set<Pid>, read: seq<Byte>)

  /** `died` is when it exited. */
  datatype Child = Running | Exited(status: int, died: nat)

  datatype Outcome = Status(status: int) | TimedOut | WaitFailed

  /** Where the parent is. `gone` is when it left the poll loop. */
  datatype Parent =
    | Polling(wakeAt: nat)
    | Reaping(killedAt: nat)
    | TakingStdout(outcome: Outcome, gone: nat)
    | TakingStderr(outcome: Outcome, gone: nat)
    | Done(outcome: Outcome, gone: nat, at: nat)

  datatype Which = Stdout | Stderr

  datatype Setup = Setup(prompt: seq<Byte>, timeout: nat, stdinCapacity: nat, outCapacity: nat, errCapacity: nat)

  datatype System = System(
    now: nat, feed: Feed, out: Channel, err: Channel, child: Child, parent: Parent)
  {
    function Of(which: Which): Channel {
      if which.Stdout? then out else err
    }

    function With(which: Which, c: Channel): System {
      if which.Stdout? then this.(out := c) else this.(err := c)
    }
  }

  datatype Event =
    // The child and its descendants.
    | ReadStdin(pid: Pid, count: nat)
    | Write(pid: Pid, which: Which, bytes: seq<Byte>)
    | CloseOutput(pid: Pid, which: Which)
    | CloseStdin(pid: Pid)
    | Fork(pid: Pid, forked: Pid)
    | Exit(pid: Pid, status: int)
    // The feeder thread.
    | FeedSome(count: nat)
    | FeedBroken
    | FeedDone
    // A draining thread.
    | DrainRead(which: Which, count: nat)
    | DrainAppend(which: Which)
    | DrainEof(which: Which)
    // The parent, and time.
    | Poll
    | PollFailed
    | Reap
    | TakeStdout
    | TakeStderr
    | Tick

  function Capacity(setup: Setup, which: Which): nat {
    if which.Stdout? then setup.outCapacity else setup.errCapacity
  }

  function Start(setup: Setup): System {
    var c := Channel([], {CHILD}, [], [], false, None, false, []);
    System(0, Feed(setup.prompt, true, false, [], {CHILD}, []), c, c, Running, Polling(0))
  }

  /** The parent's recv_timeout has its answer: EOF was reported, or the grace is over. */
  predicate MayTake(s: System, c: Channel, gone: nat) {
    c.eof || s.now >= gone + READER_GRACE
  }

  /** The parent has something to do at this moment. */
  predicate ParentDue(s: System) {
    match s.parent
    case Polling(wakeAt) => s.now >= wakeAt
    case Reaping(_) => s.child.Exited?
    case TakingStdout(_, gone) => MayTake(s, s.out, gone)
    case TakingStderr(_, gone) => MayTake(s, s.err, gone)
    case Done(_, _, _) => false
  }

  predicate Enabled(setup: Setup, s: System, e: Event) {
    match e
    case ReadStdin(pid, count) => pid in s.feed.readers && 0 < count <= |s.feed.pipe|
    case Write(pid, which, bytes) =>
      && pid in s.Of(which).writers && bytes != []
      && |s.Of(which).pipe| + |bytes| <= Capacity(setup, which)
    case CloseOutput(pid, which) => pid in s.Of(which).writers
    case CloseStdin(pid) => pid in s.feed.readers
    case Fork(_, forked) =>
      forked != CHILD && forked !in s.feed.readers && forked !in s.out.writers && forked !in s.err.writers
    case Exit(pid, _) => pid == CHILD ==> s.child.Running?
    case FeedSome(count) =>
      && s.feed.open && 0 < count <= |s.feed.left| && s.feed.readers != {}
      && |s.feed.pipe| + count <= setup.stdinCapacity
    case FeedBroken => s.feed.open && s.feed.left != [] && s.feed.readers == {}
    case FeedDone => s.feed.open && s.feed.left == []
    case DrainRead(which, count) =>
      var c := s.Of(which);
      !c.eof && c.chunk == [] && 0 < count <= |c.pipe| && count <= CHUNK
    case DrainAppend(which) => s.Of(which).chunk != []
    case DrainEof(which) =>
      var c := s.Of(which);
      !c.eof && c.chunk == [] && c.pipe == [] && c.writers == {}
    case Poll => s.parent.Polling? && s.now >= s.parent.wakeAt
    case PollFailed => s.parent.Polling? && s.now >= s.parent.wakeAt
    case Reap => s.parent.Reaping? && s.child.Exited?
    case TakeStdout => s.parent.TakingStdout? && MayTake(s, s.out, s.parent.gone)
    case TakeStderr => s.parent.TakingStderr? && MayTake(s, s.err, s.parent.gone)
    case Tick => !ParentDue(s)
  }

  function Inherited(ends: set<Pid>, pid: Pid, forked: Pid): set<Pid> {
    if pid in ends then ends + {forked} else ends
  }

  /** `mem::take` of the shared buffer. */
  function Took(c: Channel): Channel {
    c.(taken := Some(c.buf), tookWhole := c.eof, buf := [])
  }

  function Polled(setup: Setup, s: System): Parent {
    if s.child.Exited? then TakingStdout(Status(s.child.status), s.now)
    else if s.now >= setup.timeout then Reaping(s.now)
    else Polling(s.now + POLL_INTERVAL)
  }

  function Next(setup: Setup, s: System, e: Event): System
    requires Enabled(setup, s, e)
  {
    match e
    case ReadStdin(_, count) =>
      s.(feed := s.feed.(pipe := s.feed.pipe[count..], read := s.feed.read + s.feed.pipe[..count]))
    case Write(_, which, bytes) =>
      var c := s.Of(which);
      s.With(which, c.(pipe := c.pipe + bytes, written := c.written + bytes))
    case CloseOutput(pid, which) =>
      s.With(which, s.Of(which).(writers := s.Of(which).writers - {pid}))
    case CloseStdin(pid) => s.(feed := s.feed.(readers := s.feed.readers - {pid}))
    case Fork(pid, forked) =>
      s.(feed := s.feed.(readers := Inherited(s.feed.readers, pid, forked)),
         out := s.out.(writers := Inherited(s.out.writers, pid, forked)),
         err := s.err.(writers := Inherited(s.err.writers, pid, forked)))
    case Exit(pid, status) =>
      s.(feed := s.feed.(readers := s.feed.readers - {pid}),
         out := s.out.(writers := s.out.writers - {pid}),
         err := s.err.(writers := s.err.writers - {pid}),
         child := if pid == CHILD then Exited(status, s.now) else s.child)
    case FeedSome(count) =>
      s.(feed := s.feed.(left := s.feed.left[count..], pipe := s.feed.pipe + s.feed.left[..count]))
    case FeedBroken => s.(feed := s.feed.(open := false, broken := true))
    case FeedDone => s.(feed := s.feed.(open := false))
    case DrainRead(which, count) =>
      var c := s.Of(which);
      s.With(which, c.(chunk := c.pipe[..count], pipe := c.pipe[count..]))
    case DrainAppend(which) =>
      var c := s.Of(which);
      s.With(which, c.(buf := c.buf + c.chunk, chunk := []))
    case DrainEof(which) => s.With(which, s.Of(which).(eof := true))
    case Poll => s.(parent := Polled(setup, s))
    case PollFailed => s.(parent := TakingStdout(WaitFailed, s.now))
    case Reap => s.(parent := TakingStdout(TimedOut, s.now))
    case TakeStdout => s.(out := Took(s.out), parent := TakingStderr(s.parent.outcome, s.parent.gone))
    case TakeStderr => s.(err := Took(s.err), parent := Done(s.parent.outcome, s.parent.gone, s.now))
    case Tick => s.(now := s.now + 1)
  }

  /** A run of the whole system. */
  ghost predicate IsRun(setup: Setup, events: seq<Event>, states: seq<System>) {
    && |states| == |events| + 1 && states[0] == Start(setup)
    && forall i :: 0 <= i < |events| ==>
         Enabled(setup, states[i], events[i]) && states[i + 1] == Next(setup, states[i], events[i])
  }

  // ── What every step keeps ─────────────────────────────────────────────────

  function Taken(c: Channel): seq<Byte> {
    if c.taken.Some? then c.taken.value else []
  }

  /** Every byte written is in exactly one place, in order; a reader that has ended
      left nothing behind and nobody can write again. */
  predicate ChannelOk(c: Channel) {
    && c.written == Taken(c) + c.buf + c.chunk + c.pipe
    && (c.eof ==> c.writers == {} && c.pipe == [] && c.chunk == [])
    && (c.tookWhole ==> c.eof && c.taken.Some? && c.buf == [])
  }

  /** Every byte of the prompt is in exactly one place, in order; the pipe breaks only
      when nobody can read it any more. */
  predicate FeedOk(setup: Setup, f: Feed) {
    && setup.prompt == f.read + f.pipe + f.left
    && (!f.open && !f.broken ==> f.left == [])
    && (f.broken ==> f.readers == {})
  }

  /** How late the parent can be. */
  predicate ParentOk(setup: Setup, s: System) {
    match s.parent
    case Polling(wakeAt) =>
      s.now <= wakeAt <= setup.timeout + POLL_INTERVAL && s.out.taken.None? && s.err.taken.None?
    case Reaping(killedAt) =>
      && setup.timeout <= killedAt <= setup.timeout + POLL_INTERVAL && killedAt <= s.now
      && (s.child.Exited? ==> s.now == s.child.died)
      && s.out.taken.None? && s.err.taken.None?
    case TakingStdout(outcome, gone) =>
      && gone <= s.now <= gone + READER_GRACE && OutcomeOk(setup, s, outcome, gone)
      && s.out.taken.None? && s.err.taken.None?
    case TakingStderr(outcome, gone) =>
      && gone <= s.now <= gone + READER_GRACE && OutcomeOk(setup, s, outcome, gone)
      && s.out.taken.Some? && s.err.taken.None?
      && (!s.out.tookWhole ==> s.now == gone + READER_GRACE)
    case Done(outcome, gone, at) =>
      && gone <= at <= gone + READER_GRACE && OutcomeOk(setup, s, outcome, gone)
      && s.out.taken.Some? && s.err.taken.Some?
      && (!s.out.tookWhole || !s.err.tookWhole ==> at == gone + READER_GRACE)
  }

  /** A status is the child's own; a timeout was not early, and over the moment the killed
      child died; otherwise the loop ended in time. */
  predicate OutcomeOk(setup: Setup, s: System, outcome: Outcome, gone: nat) {
    match outcome
    case Status(status) => s.child.Exited? && s.child.status == status && gone <= setup.timeout + POLL_INTERVAL
    case TimedOut => s.child.Exited? && setup.timeout <= gone == s.child.died
    case WaitFailed => gone <= setup.timeout + POLL_INTERVAL
  }

  predicate Inv(setup: Setup, s: System) {
    FeedOk(setup, s.feed) && ChannelOk(s.out) && ChannelOk(s.err) && ParentOk(setup, s)
  }

  lemma FeedStep(setup: Setup, s: System, e: Event)
    requires FeedOk(setup, s.feed) && Enabled(setup, s, e)
    ensures FeedOk(setup, Next(setup, s, e).feed)
  {
    if e.ReadStdin? {
      assert s.feed.pipe == s.feed.pipe[..e.count] + s.feed.pipe[e.count..];
    } else if e.FeedSome? {
      assert s.feed.left == s.feed.left[..e.count] + s.feed.left[e.count..];
    }
  }

  lemma WriteKeepsChannel(c: Channel, bytes: seq<Byte>)
    requires ChannelOk(c) && c.writers != {}
    ensures ChannelOk(c.(pipe := c.pipe + bytes, written := c.written + bytes))
  {
    assert c.written + bytes == Taken(c) + c.buf + c.chunk + (c.pipe + bytes);
  }

  lemma DrainKeepsChannel(c: Channel, count: nat)
    requires ChannelOk(c) && !c.eof && c.chunk == [] && count <= |c.pipe|
    ensures ChannelOk(c.(chunk := c.pipe[..count], pipe := c.pipe[count..]))
  {
    assert c.pipe == c.pipe[..count] + c.pipe[count..];
  }

  lemma AppendKeepsChannel(c: Channel)
    requires ChannelOk(c) && c.chunk != []
    ensures ChannelOk(c.(buf := c.buf + c.chunk, chunk := []))
  {
    assert Taken(c) + (c.buf + c.chunk) + [] + c.pipe == Taken(c) + c.buf + c.chunk + c.pipe;
  }

  lemma TakeKeepsChannel(c: Channel)
    requires ChannelOk(c) && c.taken.None?
    ensures ChannelOk(Took(c))
  {
    assert c.buf + [] + c.chunk + c.pipe == [] + c.buf + c.chunk + c.pipe;
  }

  lemma ChannelStep(setup: Setup, s: System, e: Event, which: Which)
    requires ChannelOk(s.Of(which)) && Enabled(setup, s, e) && ParentOk(setup, s)
    ensures ChannelOk(Next(setup, s, e).Of(which))
  {
    var c := s.Of(which);
    match e
    case Write(_, w, bytes) =>
      if w == which {
        WriteKeepsChannel(c, bytes);
      }
    case DrainRead(w, count) =>
      if w == which {
        DrainKeepsChannel(c, count);
      }
    case DrainAppend(w) =>
      if w == which {
        AppendKeepsChannel(c);
      }
    case TakeStdout =>
      if which.Stdout? {
        TakeKeepsChannel(c);
      }
    case TakeStderr =>
      if which.Stderr? {
        TakeKeepsChannel(c);
      }
    case _ =>
  }

  predicate ParentActs(e: Event) {
    e.Poll? || e.PollFailed? || e.Reap? || e.TakeStdout? || e.TakeStderr?
  }

  lemma ParentActStep(setup: Setup, s: System, e: Event)
    requires ParentOk(setup, s) && Enabled(setup, s, e) && ParentActs(e)
    ensures ParentOk(setup, Next(setup, s, e))
  {
  }

  /** Nobody else moves the parent, its clock or its answers; a child that is gone stays gone. */
  lemma OtherStep(setup: Setup, s: System, e: Event)
    requires Enabled(setup, s, e) && !ParentActs(e) && !e.Tick?
    ensures var after := Next(setup, s, e);
      && after.parent == s.parent && after.now == s.now
      && after.out.taken == s.out.taken && after.out.tookWhole == s.out.tookWhole
      && after.err.taken == s.err.taken && after.err.tookWhole == s.err.tookWhole
      && (s.child.Exited? ==> after.child == s.child)
  {
  }

  lemma ParentStep(setup: Setup, s: System, e: Event)
    requires ParentOk(setup, s) && Enabled(setup, s, e)
    ensures ParentOk(setup, Next(setup, s, e))
  {
    if ParentActs(e) {
      ParentActStep(setup, s, e);
    } else if !e.Tick? {
      OtherStep(setup, s, e);
    }
  }

  lemma StepKeepsInv(setup: Setup, s: System, e: Event)
    requires Inv(setup, s) && Enabled(setup, s, e)
    ensures Inv(setup, Next(setup, s, e))
  {
    FeedStep(setup, s, e);
    ChannelStep(setup, s, e, Stdout);
    ChannelStep(setup, s, e, Stderr);
    ParentStep(setup, s, e);
  }

  lemma {:induction false} RunKeepsInv(setup: Setup, events: seq<Event>, states: seq<System>, n: nat)
    requires IsRun(setup, events, states) && n <= |events|
    ensures Inv(setup, states[n])
  {
    if n > 0 {
      RunKeepsInv(setup, events, states, n - 1);
      StepKeepsInv(setup, states[n - 1], events[n - 1]);
    }
  }

  // ── What is returned ──────────────────────────────────────────────────────

  /** What each `take` returned, whatever ran when: a prefix of everything ever
      written to that pipe, the whole of it when its EOF had been reported. The call
      returns within one grace of leaving the poll loop, for both pipes together, and
      before the grace is over only with both pipes whole. It reports a timeout no
      earlier than the timeout, at the moment the killed child died; otherwise it leaves
      the loop within one poll of the timeout, and a status it reports is the child's. */
  lemma ReturnedOutput(setup: Setup, events: seq<Event>, states: seq<System>)
    requires IsRun(setup, events, states) && states[|events|].parent.Done?
    ensures var s := states[|events|];
      && s.out.taken.Some? && s.out.taken.value <= s.out.written
      && s.err.taken.Some? && s.err.taken.value <= s.err.written
      && (s.out.tookWhole ==> s.out.taken.value == s.out.written)
      && (s.err.tookWhole ==> s.err.taken.value == s.err.written)
      && s.parent.at <= s.parent.gone + READER_GRACE
      && (s.parent.at < s.parent.gone + READER_GRACE ==> s.out.tookWhole && s.err.tookWhole)
      && (s.parent.outcome.TimedOut? ==> setup.timeout <= s.parent.gone && s.child.Exited? && s.child.died == s.parent.gone)
      && (!s.parent.outcome.TimedOut? ==> s.parent.gone <= setup.timeout + POLL_INTERVAL)
      && (s.parent.outcome.Status? ==> s.child.Exited? && s.parent.outcome.status == s.child.status)
  {
    RunKeepsInv(setup, events, states, |events|);
    TakenIsPrefix(states[|events|].out);
    TakenIsPrefix(states[|events|].err);
  }

  lemma TakenIsPrefix(c: Channel)
    requires ChannelOk(c) && c.taken.Some?
    ensures c.taken.value <= c.written && (c.tookWhole ==> c.taken.value == c.written)
  {
    assert c.written == c.taken.value + (c.buf + c.chunk + c.pipe);
  }

  /** A poll of a child that has exited takes its status, at or past the timeout as well; of
      one still running it kills the child from the timeout on, and before it sleeps one
      interval more. Nothing else moves. */
  lemma PollDecides(setup: Setup, s: System)
    requires Enabled(setup, s, Poll)
    ensures var after := Next(setup, s, Poll);
      && after == s.(parent := after.parent)
      && (s.child.Exited? ==> after.parent == TakingStdout(Status(s.child.status), s.now))
      && (s.child.Running? && s.now < setup.timeout ==> after.parent == Polling(s.now + POLL_INTERVAL))
      && (s.child.Running? && s.now >= setup.timeout ==> after.parent == Reaping(s.now))
  {
  }

  /** How the wait ended, once it has. */
  function Ended(parent: Parent): Option<Outcome> {
    match parent
    case TakingStdout(outcome, _) => Some(outcome)
    case TakingStderr(outcome, _) => Some(outcome)
    case Done(outcome, _, _) => Some(outcome)
    case _ => None
  }

  lemma EndedStep(setup: Setup, s: System, e: Event)
    requires Enabled(setup, s, e) && Ended(Next(setup, s, e).parent).Some?
    ensures var outcome := Ended(Next(setup, s, e).parent);
      || Ended(s.parent) == outcome
      || (outcome == Some(WaitFailed) && e.PollFailed?)
      || (outcome == Some(TimedOut) && e.Reap? && s.parent.Reaping?)
      || (e.Poll? && s.child.Exited? && outcome == Some(Status(s.child.status)))
  {
    if !ParentActs(e) && !e.Tick? {
      OtherStep(setup, s, e);
    }
  }

  /** A failed wait is reported only when asking after the child failed. */
  lemma {:induction false} WaitFailedMeansAsked(setup: Setup, events: seq<Event>, states: seq<System>, n: nat)
    requires IsRun(setup, events, states) && n <= |events| && Ended(states[n].parent) == Some(WaitFailed)
    ensures exists i :: 0 <= i < n && events[i].PollFailed?
  {
    if n > 0 {
      hide Next, Enabled;
      EndedStep(setup, states[n - 1], events[n - 1]);
      if !events[n - 1].PollFailed? {
        WaitFailedMeansAsked(setup, events, states, n - 1);
      }
    }
  }

  /** A `take` hands over everything its thread had appended: of all that was ever written
      only what the thread still held and what was still in the pipe is missing. */
  lemma TakenIsAllAppended(setup: Setup, events: seq<Event>, states: seq<System>)
    requires IsRun(setup, events, states)
    ensures var s := states[|events|];
      && (Enabled(setup, s, TakeStdout) ==>
            var c := Next(setup, s, TakeStdout).out;
            c.taken == Some(s.out.buf) && c.buf == [] && c.written == s.out.buf + (s.out.chunk + s.out.pipe))
      && (Enabled(setup, s, TakeStderr) ==>
            var c := Next(setup, s, TakeStderr).err;
            c.taken == Some(s.err.buf) && c.buf == [] && c.written == s.err.buf + (s.err.chunk + s.err.pipe))
  {
    RunKeepsInv(setup, events, states, |events|);
    var s := states[|events|];
    if s.parent.TakingStdout? {
      Regrouped(s.out);
    } else if s.parent.TakingStderr? {
      Regrouped(s.err);
    }
  }

  lemma Regrouped(c: Channel)
    requires ChannelOk(c) && c.taken.None?
    ensures c.written == c.buf + (c.chunk + c.pipe)
  {
  }

  /** Who holds an output's write end, or stdin's read end, after a step: a forked process
      holds what its parent held, an exited one nothing, and no other end moves. */
  lemma EndsStep(setup: Setup, s: System, e: Event, pid: Pid, which: Which)
    requires Enabled(setup, s, e)
    ensures var after := Next(setup, s, e);
      && (pid in after.Of(which).writers <==>
            match e
            case Exit(gone, _) => pid in s.Of(which).writers && pid != gone
            case CloseOutput(closer, w) => pid in s.Of(which).writers && (pid != closer || w != which)
            case Fork(parent, forked) =>
              pid in s.Of(which).writers || (pid == forked && parent in s.Of(which).writers)
            case _ => pid in s.Of(which).writers)
      && (pid in after.feed.readers <==>
            match e
            case Exit(gone, _) => pid in s.feed.readers && pid != gone
            case CloseStdin(closer) => pid in s.feed.readers && pid != closer
            case Fork(parent, forked) => pid in s.feed.readers || (pid == forked && parent in s.feed.readers)
            case _ => pid in s.feed.readers)
  {
  }

  /** Once nobody holds the write end, a drained pipe's reader reports its EOF. */
  lemma EofIsReported(setup: Setup, s: System, which: Which)
    requires s.Of(which).writers == {} && s.Of(which).pipe == [] && s.Of(which).chunk == [] && !s.Of(which).eof
    ensures Enabled(setup, s, DrainEof(which)) && Next(setup, s, DrainEof(which)).Of(which).eof
  {
  }

  /** A prompt that was fed to the end has arrived whole: what has been read is a
      prefix of it, and all of it once the pipe is empty. */
  lemma PromptArrives(setup: Setup, events: seq<Event>, states: seq<System>)
    requires IsRun(setup, events, states)
    ensures var f := states[|events|].feed;
      f.read <= setup.prompt && (!f.open && !f.broken && f.pipe == [] ==> f.read == setup.prompt)
  {
    RunKeepsInv(setup, events, states, |events|);
    var f := states[|events|].feed;
    assert setup.prompt == f.read + (f.pipe + f.left);
  }

  // ── Nothing deadlocks ─────────────────────────────────────────────────────

  predicate HasRoom(setup: Setup) {
    0 < setup.stdinCapacity && 0 < setup.outCapacity && 0 < setup.errCapacity
  }

  /** A process blocked on a full output pipe: the draining thread is never done while
      anyone can write, and its next steps alone make room. */
  lemma BlockedWriterIsFreed(setup: Setup, events: seq<Event>, states: seq<System>, pid: Pid, which: Which)
    returns (freeing: seq<Event>)
    requires IsRun(setup, events, states) && HasRoom(setup)
    requires var s := states[|events|];
      pid in s.Of(which).writers && |s.Of(which).pipe| == Capacity(setup, which)
    ensures var s := states[|events|];
      || (freeing == [DrainRead(which, 1)] && Enabled(setup, s, freeing[0])
          && |Next(setup, s, freeing[0]).Of(which).pipe| < Capacity(setup, which))
      || (freeing == [DrainAppend(which), DrainRead(which, 1)] && Enabled(setup, s, freeing[0])
          && Enabled(setup, Next(setup, s, freeing[0]), freeing[1])
          && |Next(setup, Next(setup, s, freeing[0]), freeing[1]).Of(which).pipe| < Capacity(setup, which))
  {
    RunKeepsInv(setup, events, states, |events|);
    var c := states[|events|].Of(which);
    assert ChannelOk(c) && !c.eof;
    freeing := if c.chunk == [] then [DrainRead(which, 1)] else [DrainAppend(which), DrainRead(which, 1)];
  }

  /** A process blocked on an empty stdin: there is more to feed and room to feed it,
      or the feeder is about to close, or it has closed, the read sees EOF, and the whole
      prompt has been read. */
  lemma BlockedReaderIsFed(setup: Setup, events: seq<Event>, states: seq<System>, pid: Pid)
    requires IsRun(setup, events, states) && HasRoom(setup)
    requires pid in states[|events|].feed.readers && states[|events|].feed.pipe == []
    ensures var s := states[|events|];
      Enabled(setup, s, FeedSome(1)) || Enabled(setup, s, FeedDone) || (!s.feed.open && s.feed.read == setup.prompt)
  {
    RunKeepsInv(setup, events, states, |events|);
    PromptArrives(setup, events, states);
  }

  // ── The parent returns ────────────────────────────────────────────────────

  function Ticks(events: seq<Event>): nat {
    if events == [] then 0
    else Ticks(events[..|events| - 1]) + if events[|events| - 1].Tick? then 1 else 0
  }

  /** How many steps the parent has taken. */
  function Acts(events: seq<Event>): nat {
    if events == [] then 0
    else Acts(events[..|events| - 1]) + if ParentActs(events[|events| - 1]) then 1 else 0
  }

  /** The last moment the parent can still be at work, for a child that dies at all: one
      poll after the timeout, or the killed child's death, and the grace. */
  function LastMoment(setup: Setup, s: System): nat {
    var gone := setup.timeout + POLL_INTERVAL;
    (if s.child.Exited? && s.child.died > gone then s.child.died else gone) + READER_GRACE
  }

  /** The parent's steps so far, each poll paid for by the time slept before it. */
  predicate ActsOk(setup: Setup, s: System, acts: nat) {
    var spent := POLL_INTERVAL * acts;
    match s.parent
    case Polling(wakeAt) => spent == wakeAt
    case Reaping(_) => spent <= setup.timeout + 2 * POLL_INTERVAL
    case TakingStdout(_, _) => spent <= setup.timeout + 3 * POLL_INTERVAL
    case TakingStderr(_, _) => spent <= setup.timeout + 4 * POLL_INTERVAL
    case Done(_, _, _) => spent <= setup.timeout + 5 * POLL_INTERVAL
  }

  lemma ActsStep(setup: Setup, s: System, e: Event, acts: nat)
    requires ParentOk(setup, s) && Enabled(setup, s, e) && ActsOk(setup, s, acts)
    ensures ActsOk(setup, Next(setup, s, e), if ParentActs(e) then acts + 1 else acts)
  {
    if !ParentActs(e) && !e.Tick? {
      OtherStep(setup, s, e);
    }
  }

  lemma TimeStep(setup: Setup, s: System, e: Event)
    requires Enabled(setup, s, e)
    ensures Next(setup, s, e).now == s.now + if e.Tick? then 1 else 0
  {
  }

  lemma {:induction false} RunIsCounted(setup: Setup, events: seq<Event>, states: seq<System>)
    requires IsRun(setup, events, states)
    ensures states[|events|].now == Ticks(events) && ActsOk(setup, states[|events|], Acts(events))
    decreases |events|
  {
    if events != [] {
      var last := |events| - 1;
      RunIsCounted(setup, events[..last], states[..|events|]);
      RunKeepsInv(setup, events, states, last);
      TimeStep(setup, states[last], events[last]);
      ActsStep(setup, states[last], events[last], Acts(events[..last]));
    }
  }

  lemma InTime(setup: Setup, s: System)
    requires ParentOk(setup, s)
    ensures s.parent.Reaping? ==> setup.timeout <= s.parent.killedAt <= setup.timeout + POLL_INTERVAL
    ensures s.parent.Reaping? ==> s.parent.killedAt <= s.now
    ensures s.now > LastMoment(setup, s) ==> s.parent.Done? || (s.parent.Reaping? && s.child.Running?)
    ensures s.parent.Done? ==> s.parent.at <= LastMoment(setup, s)
    ensures s.parent.Done? && !s.parent.outcome.TimedOut? ==>
              s.parent.at <= setup.timeout + POLL_INTERVAL + READER_GRACE
  {
  }

  /** A child is killed no earlier than the timeout and at most one poll after it. However
      full or empty the pipes and whoever holds them, in every run the parent takes at most
      one step for each interval slept up to the timeout and five more; and once more ticks
      have passed than to its last moment it has returned, unless it still waits for a child
      it has killed and which has not died. */
  lemma ParentReturns(setup: Setup, events: seq<Event>, states: seq<System>)
    requires IsRun(setup, events, states)
    ensures POLL_INTERVAL * Acts(events) <= setup.timeout + 5 * POLL_INTERVAL
    ensures var s := states[|events|];
      && (s.parent.Reaping? ==>
            setup.timeout <= s.parent.killedAt <= setup.timeout + POLL_INTERVAL && s.parent.killedAt <= Ticks(events))
      && (Ticks(events) > LastMoment(setup, s) ==>
            s.parent.Done? || (s.parent.Reaping? && s.child.Running?))
      && (s.parent.Done? ==> s.parent.at <= LastMoment(setup, s))
      && (s.parent.Done? && !s.parent.outcome.TimedOut? ==>
            s.parent.at <= setup.timeout + POLL_INTERVAL + READER_GRACE)
  {
    hide ParentOk, ActsOk, LastMoment, Ticks, Acts;
    RunKeepsInv(setup, events, states, |events|);
    RunIsCounted(setup, events, states);
    var s, acts := states[|events|], Acts(events);
    InTime(setup, s);
    FewActs(setup, s, acts);
  }

  lemma FewActs(setup: Setup, s: System, acts: nat)
    requires ParentOk(setup, s) && ActsOk(setup, s, acts)
    ensures POLL_INTERVAL * acts <= setup.timeout + 5 * POLL_INTERVAL
  {
  }

  /** How many ticks the parent can still be kept waiting once it has left the poll
      loop: every tick uses one up, nothing else adds any, and with none left it returns. */
  function GraceLeft(s: System): int {
    match s.parent
    case TakingStdout(_, gone) => gone + READER_GRACE - s.now
    case TakingStderr(_, gone) => gone + READER_GRACE - s.now
    case _ => 0
  }

  lemma GraceRunsOut(setup: Setup, s: System, e: Event)
    requires Inv(setup, s) && Enabled(setup, s, e) && (s.parent.TakingStdout? || s.parent.TakingStderr?)
    ensures GraceLeft(s) >= 0
    ensures e.Tick? ==> GraceLeft(Next(setup, s, e)) == GraceLeft(s) - 1
    ensures !e.Tick? && !Next(setup, s, e).parent.Done? ==> GraceLeft(Next(setup, s, e)) == GraceLeft(s)
    ensures GraceLeft(s) == 0 ==> Enabled(setup, s, TakeStdout) || Enabled(setup, s, TakeStderr)
  {
  }

  /** A grandchild may hold a pipe open past everything: its bytes written after the
      take are in nobody's answer, and the answer is already complete. */
  lemma LateWritesChangeNothing(setup: Setup, s: System, e: Event)
    requires Inv(setup, s) && Enabled(setup, s, e) && s.parent.Done?
    ensures var after := Next(setup, s, e);
      after.parent == s.parent && after.out.taken == s.out.taken && after.err.taken == s.err.taken
  {
  }
}
