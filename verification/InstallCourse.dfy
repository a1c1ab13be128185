/** What one run of `install_copy` decides and does (src-tauri/src/bundled_bin.rs): when
    it leaves the target alone, when it replaces it, what else each step touches, and
    which names the sweeper takes. */
module InstallCourse {
  import opened Bytes
  import opened Wrappers
  import opened InstallProtocol

  // ── What is decided ───────────────────────────────────────────────────────

  /** The target is looked into only when its metadata could be a copy's: a plain file of
      ours, of mode 0755 and of the source's length. Looking changes nothing else. */
  lemma LookDecides(sources: nat -> seq<Byte>, s: State, run: nat)
    requires Enabled(sources, s, Look(run))
    ensures var after := Next(sources, s, Look(run));
      && after.files == s.files && after.dir == s.dir
      && after.runs == s.runs[run := after.runs[run]]
      && (after.runs[run] == OpenDest || after.runs[run] == CreateTmp)
      && (after.runs[run] == OpenDest <==>
            && Dest in s.dir && s.dir[Dest].Regular? && s.dir[Dest].ino in s.files
            && s.files[s.dir[Dest].ino].ours && s.files[s.dir[Dest].ino].mode == 493
            && |s.files[s.dir[Dest].ino].content| == |sources(run)|)
  {
  }

  /** Equal bytes are answered at once and nothing is replaced; any others lead to a new
      temp file. Comparing changes nothing else. */
  lemma CompareDecides(sources: nat -> seq<Byte>, s: State, run: nat)
    requires Enabled(sources, s, Compare(run))
    ensures var after := Next(sources, s, Compare(run));
      && after.files == s.files && after.dir == s.dir
      && after.runs == s.runs[run := after.runs[run]]
      && (s.files[s.runs[run].ino].content == sources(run) ==> after.runs[run] == Finished(Ok(Unchanged)))
      && (s.files[s.runs[run].ino].content != sources(run) ==> after.runs[run] == CreateTmp)
  {
  }

  /** A step gives or takes a name only so: a run creates its own temp name, a rename
      moves that to the target, and a clean-up or the sweeper removes one temp name. */
  lemma NamesStep(sources: nat -> seq<Byte>, s: State, e: Event, n: Name)
    requires Enabled(sources, s, e)
    ensures var after := Next(sources, s, e);
      if e.Create? && n == Tmp(e.run) then n in after.dir && after.dir[n] == Regular(e.ino)
      else if e.Rename? && n == Dest then n in after.dir && after.dir[n] == s.dir[Tmp(e.run)]
      else if e.Rename? && n == Tmp(e.run) then n !in after.dir
      else if e.Clean? && e.removed && n == Tmp(e.run) then n !in after.dir
      else if e.Sweep? && n == Tmp(e.swept) then n !in after.dir
      else (n in after.dir <==> n in s.dir) && (n in s.dir ==> after.dir[n] == s.dir[n])
  {
  }

  /** A run answers `Err` only by failing to compare or after cleaning up. */
  lemma FailureIsNamed(sources: nat -> seq<Byte>, s: State, e: Event, run: nat)
    requires Enabled(sources, s, e)
    requires run in Next(sources, s, e).runs && Next(sources, s, e).runs[run] == Finished(Err(()))
    requires run !in s.runs || s.runs[run] != Finished(Err(()))
    ensures (e == CompareFails(run) && !s.runs[run].CleanUp?) || (e.Clean? && e.run == run && s.runs[run].CleanUp?)
  {
  }

  // ── A run left alone ──────────────────────────────────────────────────────

  /** The events, one after another, take `s` to `after`. */
  ghost predicate Leads(sources: nat -> seq<Byte>, s: State, events: seq<Event>, after: State)
    decreases |events|
  {
    if events == [] then s == after
    else Enabled(sources, s, events[0]) && Leads(sources, Next(sources, s, events[0]), events[1..], after)
  }

  lemma LeadsOn(sources: nat -> seq<Byte>, s: State, e: Event, events: seq<Event>, after: State)
    requires Enabled(sources, s, e) && Leads(sources, Next(sources, s, e), events, after)
    ensures Leads(sources, s, [e] + events, after)
  {
    assert ([e] + events)[0] == e && ([e] + events)[1..] == events;
  }

  /** The run at the new temp file: nothing fails, and it puts a copy in place. */
  predicate Ready(s: State, run: nat, ino: Ino) {
    && run in s.runs && s.runs[run].CreateTmp? && Tmp(run) !in s.dir && ino !in s.files
    && (Dest in s.dir ==> !s.dir[Dest].Directory?)
  }

  /** `after` is `before` with the target made a copy of the source. */
  ghost predicate Installs(source: seq<Byte>, before: State, run: nat, after: State) {
    && DestIsCopyOf(source, after) && Tmp(run) !in after.dir
    && after.runs == before.runs[run := Finished(Ok(Replaced))]
    && (forall n :: n != Dest && n != Tmp(run) ==>
          (n in after.dir <==> n in before.dir) && (n in before.dir ==> after.dir[n] == before.dir[n]))
    && (forall f :: f in before.files ==> f in after.files && after.files[f] == before.files[f])
  }

  /** The temp file, with its mode as created, holds the whole source. */
  lemma CopiedCourse(sources: nat -> seq<Byte>, s: State, run: nat, ino: Ino, mode: nat)
    returns (events: seq<Event>, after: State)
    requires Ready(s, run, ino)
    ensures after == State(s.files[ino := File(sources(run), mode, true)], s.dir[Tmp(run) := Regular(ino)], s.runs[run := SetMode(ino)])
    ensures Leads(sources, s, events, after)
  {
    var created := Next(sources, s, Create(run, ino, mode));
    var source := sources(run);
    events, after := [CopyEnds(run)], created.(runs := created.runs[run := SetMode(ino)]);
    if source == [] {
      LeadsOn(sources, created, CopyEnds(run), [], after);
    } else {
      var copied := Next(sources, created, CopySome(run, |source|));
      assert source[..0 + |source|] == source;
      assert copied.files == s.files[ino := File(source, mode, true)];
      after := copied.(runs := copied.runs[run := SetMode(ino)]);
      LeadsOn(sources, copied, CopyEnds(run), [], after);
      LeadsOn(sources, created, CopySome(run, |source|), events, after);
      events := [CopySome(run, |source|)] + events;
    }
    LeadsOn(sources, s, Create(run, ino, mode), events, after);
    events := [Create(run, ino, mode)] + events;
    assert after.runs == s.runs[run := SetMode(ino)];
  }

  lemma {:induction false} LeadsThrough(
    sources: nat -> seq<Byte>, s: State, first: seq<Event>, mid: State, last: seq<Event>, after: State)
    requires Leads(sources, s, first, mid) && Leads(sources, mid, last, after)
    ensures Leads(sources, s, first + last, after)
    decreases |first|
  {
    if first == [] {
      assert first + last == last;
    } else {
      hide Next, Enabled;
      LeadsThrough(sources, Next(sources, s, first[0]), first[1..], mid, last, after);
      LeadsOn(sources, s, first[0], first[1..] + last, after);
      assert first + last == [first[0]] + (first[1..] + last);
    }
  }

  lemma PutInPlace(sources: nat -> seq<Byte>, s: State, run: nat, ino: Ino)
    returns (events: seq<Event>, after: State)
    requires run in s.runs && s.runs[run] == SetMode(ino) && ino in s.files
    requires Tmp(run) in s.dir && (Dest in s.dir ==> !s.dir[Dest].Directory?)
    ensures Leads(sources, s, events, after)
    ensures after == State(s.files[ino := s.files[ino].(mode := 493)], (s.dir - {Tmp(run)})[Dest := s.dir[Tmp(run)]],
                           s.runs[run := Finished(Ok(Replaced))])
  {
    var ready := Next(sources, s, Chmod(run));
    after := Next(sources, ready, Rename(run));
    LeadsOn(sources, ready, Rename(run), [], after);
    LeadsOn(sources, s, Chmod(run), [Rename(run)], after);
    events := [Chmod(run)] + [Rename(run)];
  }

  lemma CopyCourse(sources: nat -> seq<Byte>, s: State, run: nat, ino: Ino, mode: nat)
    returns (events: seq<Event>, after: State)
    requires Ready(s, run, ino)
    ensures Leads(sources, s, events, after) && Installs(sources(run), s, run, after)
  {
    hide Leads;
    var first, mid := CopiedCourse(sources, s, run, ino, mode);
    var last;
    last, after := PutInPlace(sources, mid, run, ino);
    LeadsThrough(sources, s, first, mid, last, after);
    events := first + last;
  }

  /** From its beginning to its answer or to the temp file it needs. */
  lemma DecideCourse(sources: nat -> seq<Byte>, s: State, run: nat)
    returns (events: seq<Event>, after: State)
    requires run !in s.runs && WellFormed(s)
    ensures Leads(sources, s, events, after)
    ensures after == s.(runs := s.runs[run := if DestIsCopyOf(sources(run), s) then Finished(Ok(Unchanged)) else CreateTmp])
  {
    hide Leads;
    var begun, looked := s.(runs := s.runs[run := LookAtDest]), s.(runs := s.runs[run := OpenDest]);
    var answer := if DestIsCopyOf(sources(run), s) then Finished(Ok(Unchanged)) else CreateTmp;
    after := s.(runs := s.runs[run := answer]);
    NoEvents(sources, after);
    if LooksInstalled(s, sources(run)) {
      var reading := s.(runs := s.runs[run := CompareDest(s.dir[Dest].ino)]);
      Compared(sources, s, run, reading, after);
      events := [Compare(run)] + [];
      LeadsOn(sources, reading, Compare(run), [], after);
      assert looked.runs[run := reading.runs[run]] == reading.runs && Next(sources, looked, Open(run)) == reading;
      LeadsOn(sources, looked, Open(run), events, after);
      events := [Open(run)] + events;
      assert begun.runs[run := OpenDest] == looked.runs && Next(sources, begun, Look(run)) == looked;
      LeadsOn(sources, begun, Look(run), events, after);
    } else {
      events := [];
      assert begun.runs[run := CreateTmp] == after.runs && Next(sources, begun, Look(run)) == after;
      LeadsOn(sources, begun, Look(run), [], after);
    }
    events := [Look(run)] + events;
    LeadsOn(sources, s, Begin(run), events, after);
    events := [Begin(run)] + events;
  }

  /** The same, but for where the run is. */
  predicate Again(s: State, run: nat, after: State) {
    run in after.runs && after == s.(runs := s.runs[run := after.runs[run]])
  }

  lemma NoEvents(sources: nat -> seq<Byte>, s: State)
    ensures Leads(sources, s, [], s)
  {
  }

  lemma Compared(sources: nat -> seq<Byte>, s: State, run: nat, reading: State, after: State)
    requires LooksInstalled(s, sources(run)) && reading == s.(runs := s.runs[run := CompareDest(s.dir[Dest].ino)])
    requires after == s.(runs := s.runs[run := if DestIsCopyOf(sources(run), s) then Finished(Ok(Unchanged)) else CreateTmp])
    ensures Enabled(sources, reading, Compare(run)) && Next(sources, reading, Compare(run)) == after
  {
    assert Again(reading, run, after);
  }

  /** A run left alone, to which no call fails: over a copy of its own source it answers
      `Unchanged` and leaves every file and name as it was; over anything else that is
      no directory it answers `Replaced`, the target is a copy, its temp name is gone and
      every other name and file is as it was. So a second run of the same source changes
      nothing. */
  lemma LoneRun(sources: nat -> seq<Byte>, s: State, run: nat, ino: Ino, mode: nat)
    returns (events: seq<Event>, after: State)
    requires run !in s.runs && WellFormed(s)
    requires Tmp(run) !in s.dir && ino !in s.files && (Dest in s.dir ==> !s.dir[Dest].Directory?)
    ensures Leads(sources, s, events, after)
    ensures DestIsCopyOf(sources(run), s) ==> after == s.(runs := s.runs[run := Finished(Ok(Unchanged))])
    ensures !DestIsCopyOf(sources(run), s) ==> Installs(sources(run), s, run, after)
  {
    hide Leads, Installs;
    events, after := DecideCourse(sources, s, run);
    if !DestIsCopyOf(sources(run), s) {
      var decided := after;
      var more;
      more, after := CopyCourse(sources, decided, run, ino, mode);
      LeadsThrough(sources, s, events, decided, more, after);
      events := events + more;
      InstalledAlike(sources(run), s, decided, run, after);
    }
  }

  lemma InstalledAlike(source: seq<Byte>, s: State, decided: State, run: nat, after: State)
    requires Again(s, run, decided) && Installs(source, decided, run, after)
    ensures Installs(source, s, run, after)
  {
    assert s.runs[run := Finished(Ok(Replaced))] == decided.runs[run := Finished(Ok(Replaced))];
  }

  // ── Which names the sweeper takes ─────────────────────────────────────────

  lemma SuffixSplit(file: string, prefix: string)
    requires prefix <= file && |file| >= |prefix| + 4 && file[|file| - 4..] == ".tmp"
    ensures file == prefix + file[|prefix|..|file| - 4] + ".tmp"
  {
  }

  /** The sweeper takes exactly the names a dot, the installed name, a dot, anything and
      the suffix make, and the one where the two dots are the same. */
  lemma SweptExactly(name: string, file: string)
    ensures Swept(name, file) <==>
      || file == "." + name + ".tmp"
      || exists id :: file == TmpName(name, id)
  {
    var prefix := "." + name + ".";
    if Swept(name, file) {
      if |file| >= |prefix| + 4 {
        SuffixSplit(file, prefix);
        assert file == TmpName(name, file[|prefix|..|file| - 4]);
      } else {
        ShortName(name, file);
      }
    }
    if file == "." + name + ".tmp" {
      assert file == prefix + "tmp" && file == ("." + name) + ".tmp";
    }
    if id :| file == TmpName(name, id) {
      assert file == prefix + (id + ".tmp") && file == (prefix + id) + ".tmp";
    }
  }

  lemma ShortName(name: string, file: string)
    requires Swept(name, file) && |file| < |name| + 6
    ensures file == "." + name + ".tmp"
  {
    var prefix := "." + name + ".";
    var k := |file| - 4;
    assert file[k..][0] == '.' && file[k..][1] == 't' && file[k..][2] == 'm' && file[k..][3] == 'p';
    assert file[|prefix| - 1] == prefix[|prefix| - 1] == '.';
    assert k == |prefix| - 1;
    assert file == file[..k] + file[k..] && file[..k] == prefix[..k] == "." + name;
  }
}
