/** Update of the distributed files of the harness manager, with rollback. Every operation on
    the host may fail: `faults` says which ones do, so that what is proved holds whichever
    steps fail. `make install` and the service commands leave the distributed files alone. */
module ManagerUpdate {
  import opened Wrappers
  import opened Ordering
  import opened ReleaseVersion

  /** What a name of the installation directory holds. */
  datatype Node = Regular(content: string) | Irregular

  const FILES := {"main.py", "update.py", "Makefile", "pyproject.toml", "uv.lock", "README.md", ".env.example"}

  const PROJECT := "pyproject.toml"

  type Directory = map<string, Node>

  /** `files` where each of `names` holds its staged content. */
  ghost function Overlay(files: Directory, staged: map<string, string>, names: seq<string>): Directory
    requires forall n :: n in names ==> n in staged
  {
    map n | n in files.Keys + (set m | m in names) :: if n in names then Regular(staged[n]) else files[n]
  }

  /** The regular contents of `names`, as a copy holds them. */
  ghost function Copied(files: Directory, names: seq<string>): map<string, string> {
    map n | n in files && n in names && files[n].Regular? :: files[n].content
  }

  ghost predicate Replaceable(files: Directory, names: seq<string>) {
    forall n :: n in names && n in files ==> files[n].Regular?
  }

  ghost predicate SameElsewhere(a: Directory, b: Directory, names: seq<string>) {
    forall n :: n !in names ==> (n in a <==> n in b) && (n in a ==> a[n] == b[n])
  }

  /** Each of `names` is as the backup says: its content, or absent. */
  ghost predicate AsSaved(files: Directory, backup: map<string, string>, names: seq<string>) {
    forall n :: n in names ==> (n in files <==> n in backup) && (n in backup ==> files[n] == Regular(backup[n]))
  }

  lemma OverlayNext(files: Directory, staged: map<string, string>, names: seq<string>, i: nat)
    requires i < |names| && forall n :: n in names ==> n in staged
    ensures Overlay(files, staged, names[..i + 1])
         == Overlay(files, staged, names[..i])[names[i] := Regular(staged[names[i]])]
  {
    assert names[..i + 1] == names[..i] + [names[i]];
  }

  lemma OverlayReplaceable(files: Directory, staged: map<string, string>, names: seq<string>, i: nat)
    requires i < |names| && forall n :: n in names ==> n in staged
    ensures Replaceable(files, names) ==> Replaceable(Overlay(files, staged, names[..i]), [names[i]])
  {
  }

  lemma OverlayElsewhere(files: Directory, staged: map<string, string>, names: seq<string>, done: nat)
    requires done <= |names| && forall n :: n in names ==> n in staged
    ensures SameElsewhere(files, Overlay(files, staged, names[..done]), names)
  {
  }

  /** Only which names are replaced matters, not their order. */
  lemma OverlaySame(files: Directory, staged: map<string, string>, names: seq<string>, other: seq<string>)
    requires forall n :: n in names ==> n in staged
    requires forall n :: n in names <==> n in other
    ensures Overlay(files, staged, names) == Overlay(files, staged, other)
    ensures Replaceable(files, names) == Replaceable(files, other)
  {
    assert (set m | m in names) == (set m | m in other);
  }

  lemma ElsewhereTransitive(a: Directory, b: Directory, c: Directory, names: seq<string>)
    requires SameElsewhere(a, b, names) && SameElsewhere(b, c, names)
    ensures SameElsewhere(a, c, names)
  {
  }

  /** Putting every saved name back, and removing the rest, gives the original directory. */
  lemma RestoredIsOriginal(before: Directory, after: Directory, names: seq<string>)
    requires Replaceable(before, names) && SameElsewhere(before, after, names)
    requires AsSaved(after, Copied(before, names), names)
    ensures after == before
  {
    forall n
      ensures n in after <==> n in before
      ensures n in after ==> after[n] == before[n]
    {
    }
  }

  /** The version that the project file of a directory announces. */
  function Installed(files: Directory, reading: Node -> Option<string>): (v: Option<seq<int>>)
    ensures v.Some? ==> |v.value| == 3
  {
    if PROJECT !in files then None
    else
      var text := reading(files[PROJECT]);
      if text.None? then None else Version(text.value)
  }

  /** A downloaded and authenticated release. */
  datatype Release = Release(version: string, archive: map<string, string>)

  /** The archive holds exactly the files `names` and announces the version of its manifest. */
  predicate Consistent(release: Release, names: set<string>, reading: Node -> Option<string>) {
    && release.archive.Keys == names && PROJECT in release.archive
    && reading(Regular(release.archive[PROJECT])) == Some(release.version)
    && Version(release.version).Some?
  }

  /** The release is newer than what is installed. */
  predicate Supersedes(release: Release, files: Directory, reading: Node -> Option<string>) {
    && Installed(files, reading).Some? && Version(release.version).Some?
    && Older(Installed(files, reading).value, Version(release.version).value)
  }

  /** `listing` enumerates the files `names` in some order. */
  ghost predicate Enumerates(listing: seq<string>, names: set<string>) {
    forall n :: n in listing <==> n in names
  }

  /** The distributed files are those of the release, and its version is the installed one. */
  ghost predicate Delivered(release: Release, before: Directory, after: Directory, listing: seq<string>,
                            reading: Node -> Option<string>) {
    && (forall n :: n in listing ==> n in release.archive)
    && after == Overlay(before, release.archive, listing)
    && Installed(after, reading) == Version(release.version)
  }

  lemma OverlayInstalled(files: Directory, release: Release, names: set<string>, listing: seq<string>,
                         reading: Node -> Option<string>)
    requires Consistent(release, names, reading) && Enumerates(listing, names)
    ensures forall n :: n in listing ==> n in release.archive
    ensures Delivered(release, files, Overlay(files, release.archive, listing), listing, reading)
  {
    assert PROJECT in listing;
  }

  datatype Decision = Refuse | Same | Proceed

  function Decide(release: Release, files: Directory, reading: Node -> Option<string>): Decision {
    var target, current := Version(release.version), Installed(files, reading);
    if target.None? || current.None? then Refuse
    else if target.value == current.value then Same
    else if Older(target.value, current.value) then Refuse
    else Proceed
  }

  /** Only a newer release goes ahead: the order of versions is total. */
  lemma DecideMeaning(release: Release, files: Directory, reading: Node -> Option<string>)
    ensures Decide(release, files, reading) == Proceed <==> Supersedes(release, files, reading)
    ensures Decide(release, files, reading) == Same <==>
            Version(release.version).Some? && Installed(files, reading) == Version(release.version)
  {
    if Version(release.version).Some? && Installed(files, reading).Some? {
      NewerOtherwise(Installed(files, reading).value, Version(release.version).value);
    }
  }

  /** The installed version precedes that of the release, number by number. */
  predicate Behind(files: Directory, release: Release, reading: Node -> Option<string>) {
    && Installed(files, reading).Some? && Version(release.version).Some?
    && Precedes(Installed(files, reading).value, Version(release.version).value)
  }

  lemma ProceedsIffBehind(release: Release, files: Directory, reading: Node -> Option<string>)
    ensures Decide(release, files, reading) == Proceed <==> Behind(files, release, reading)
  {
    DecideMeaning(release, files, reading);
    if Installed(files, reading).Some? && Version(release.version).Some? {
      OlderMeaning(Installed(files, reading).value, Version(release.version).value);
    }
  }

  /** With the numbers `v` installed and `w` offered, the update goes ahead exactly when the first
      number in which they differ is greater in the offer, and is a no-op when there is none. */
  lemma DecideByNumbers(release: Release, files: Directory, reading: Node -> Option<string>, v: seq<int>, w: seq<int>)
    requires PROJECT in files && reading(files[PROJECT]).Some? && Says(reading(files[PROJECT]).value, v)
    requires Says(release.version, w)
    ensures Decide(release, files, reading) == Proceed <==>
              v[0] < w[0] || (v[0] == w[0] && v[1] < w[1]) || (v[0] == w[0] && v[1] == w[1] && v[2] < w[2])
    ensures Decide(release, files, reading) == Same <==> v[0] == w[0] && v[1] == w[1] && v[2] == w[2]
  {
    SaysVersion(reading(files[PROJECT]).value, v);
    SaysVersion(release.version, w);
    DecideByValues(release, files, reading, v, w);
  }

  lemma DecideByValues(release: Release, files: Directory, reading: Node -> Option<string>, v: seq<int>, w: seq<int>)
    requires |v| == |w| == 3 && Installed(files, reading) == Some(v) && Version(release.version) == Some(w)
    ensures Decide(release, files, reading) == Proceed <==>
              v[0] < w[0] || (v[0] == w[0] && v[1] < w[1]) || (v[0] == w[0] && v[1] == w[1] && v[2] < w[2])
    ensures Decide(release, files, reading) == Same <==> v[0] == w[0] && v[1] == w[1] && v[2] == w[2]
  {
    ProceedsIffBehind(release, files, reading);
    DecideMeaning(release, files, reading);
    assert v == [v[0], v[1], v[2]] && w == [w[0], w[1], w[2]];
  }

  /** What an update whose rollback, if any, succeeded does to the directory. */
  ghost predicate Moves(before: Directory, after: Directory, reading: Node -> Option<string>) {
    after == before || exists release, listing ::
      Delivered(release, before, after, listing, reading) && Decide(release, before, reading) == Proceed
  }

  lemma MovesForward(before: Directory, after: Directory, reading: Node -> Option<string>)
    requires Moves(before, after, reading) && Installed(before, reading).Some?
    ensures Installed(after, reading).Some?
    ensures var v, w := Installed(before, reading).value, Installed(after, reading).value; v == w || Precedes(v, w)
  {
    if after != before {
      var release, listing :|
        Delivered(release, before, after, listing, reading) && Decide(release, before, reading) == Proceed;
      ProceedsIffBehind(release, before, reading);
    }
  }

  /** Over any number of updates whose rollback, if any, succeeded, the installed version never
      goes back. */
  lemma {:induction false} NeverDowngraded(history: seq<Directory>, reading: Node -> Option<string>, n: nat)
    requires n < |history| && Installed(history[0], reading).Some?
    requires forall i :: 0 < i < |history| ==> Moves(history[i - 1], history[i], reading)
    ensures Installed(history[n], reading).Some?
    ensures var v, w := Installed(history[0], reading).value, Installed(history[n], reading).value;
            v == w || Precedes(v, w)
    decreases n
  {
    if n > 0 {
      NeverDowngraded(history, reading, n - 1);
      MovesForward(history[n - 1], history[n], reading);
      PrecedesTransitive(Installed(history[0], reading).value, Installed(history[n - 1], reading).value,
                         Installed(history[n], reading).value);
    }
  }

  lemma PrecedesTransitive(u: seq<int>, v: seq<int>, w: seq<int>)
    requires |u| == |v| == |w| == 3 && (u == v || Precedes(u, v)) && (v == w || Precedes(v, w))
    ensures u == w || Precedes(u, w)
  {
  }

  datatype Outcome =
    | UpToDate
    | Rejected        // an error before any distributed file was touched
    | Updated
    | RolledBack      // the update failed and the previous files are back
    | RecoveryNeeded  // the rollback failed as well; the backup holds the files

  /** Whatever fails: no other name is touched, the directory is as it was unless the update
      succeeded or its rollback failed, and then the backup holds all that was there. */
  ghost predicate Safe(before: Directory, after: Directory, outcome: Outcome, backup: map<string, string>,
                       listing: seq<string>) {
    && SameElsewhere(before, after, listing)
    && (outcome.UpToDate? || outcome.Rejected? || outcome.RolledBack? ==> after == before)
    && (outcome.RecoveryNeeded? ==> backup == Copied(before, listing))
  }

  /** What an update comes to, file by file: files change only for a release that the installed
      version precedes; after success each distributed file is the one of the release; after a
      rollback that failed each distributed file that was there is in the backup; and no other
      file is touched. */
  ghost predicate Plainly(before: Directory, after: Directory, outcome: Outcome, backup: map<string, string>,
                          offer: Option<Release>, reading: Node -> Option<string>) {
    && (after != before ==> offer.Some? && Behind(before, offer.value, reading))
    && (outcome.Updated? ==> offer.Some?)
    && (outcome.Updated? ==>
          forall n :: n in FILES ==>
            n in offer.value.archive && n in after && after[n] == Regular(offer.value.archive[n]))
    && (outcome.RecoveryNeeded? ==>
          forall n :: n in FILES && n in before ==> n in backup && before[n] == Regular(backup[n]))
    && (outcome.UpToDate? || outcome.Rejected? || outcome.RolledBack? ==> after == before)
    && (forall n :: n !in FILES ==> (n in after <==> n in before) && (n in after ==> after[n] == before[n]))
  }

  lemma InstalledPlainly(before: Directory, after: Directory, outcome: Outcome, backup: map<string, string>,
                         release: Release, listing: seq<string>, reading: Node -> Option<string>)
    requires Enumerates(listing, FILES) && Safe(before, after, outcome, backup, listing)
    requires Behind(before, release, reading)
    requires outcome.Updated? ==> Delivered(release, before, after, listing, reading)
    requires outcome.RecoveryNeeded? ==> Replaceable(before, listing)
    ensures Plainly(before, after, outcome, backup, Some(release), reading)
  {
  }

  /** No operation fails from step `from` to step `to`. */
  ghost predicate Clean(faults: nat -> bool, from: nat, to: nat) {
    from <= to && forall k :: from <= k < to ==> !faults(k)
  }

  lemma CleanJoin(faults: nat -> bool, a: nat, b: nat, c: nat)
    requires a <= b <= c
    ensures Clean(faults, a, c) <==> Clean(faults, a, b) && Clean(faults, b, c)
  {
  }

  lemma DeliveredMoves(release: Release, before: Directory, after: Directory, listing: seq<string>,
                       reading: Node -> Option<string>)
    requires Delivered(release, before, after, listing, reading) && Decide(release, before, reading) == Proceed
    ensures Moves(before, after, reading)
  {
  }

  /** What was done to the service and the files, as far as it succeeded. */
  datatype Deed = StopService | FilesReplaced | FilesRestored | MakeInstall | StartService | Announced(version: string)

  function Stopping(running: bool): seq<Deed> { if running then [StopService] else [] }

  /** Installation, and then the service runs again and announces the version, if it was running. */
  function Restarting(running: bool, version: string): seq<Deed> {
    [MakeInstall] + if running then [StartService, Announced(version)] else []
  }

  /** The version that the project file announces, as it is written. */
  function Written(files: Directory, reading: Node -> Option<string>): string {
    if PROJECT in files && reading(files[PROJECT]).Some? then reading(files[PROJECT]).value else ""
  }

  /** What an update did to the service: after success it was stopped before the files changed and
      runs again with the new version; after a rollback it runs again with the old one; before
      the first change nothing was done to it. */
  ghost predicate Serviced(before: seq<Deed>, after: seq<Deed>, outcome: Outcome, running: bool, target: string,
                           installed: string) {
    && (outcome.Updated? ==> after == before + Stopping(running) + [FilesReplaced] + Restarting(running, target))
    && (outcome.RolledBack? ==>
          exists failed :: before + Stopping(running) <= failed
            && after == failed + Stopping(running) + [FilesRestored] + Restarting(running, installed))
    && (outcome.Rejected? || outcome.UpToDate? ==> after == before)
  }

  class Host {
    var files: Directory
    /** How many temporary files exist beside the distributed ones. */
    var temporaries: nat
    ghost var unremoved: nat  // how often the removal of a temporary file failed
    ghost var log: seq<Deed>
    var step: nat
    const faults: nat -> bool
    /** What an interrupted copy leaves in its target; `None` when it left it alone. */
    const debris: nat -> Option<string>

    constructor (files: Directory, faults: nat -> bool, debris: nat -> Option<string>)
      ensures this.files == files && temporaries == unremoved == 0 && step == 0 && log == []
      ensures this.faults == faults && this.debris == debris
    {
      this.files, temporaries, unremoved, step, log := files, 0, 0, 0, [];
      this.faults, this.debris := faults, debris;
    }

    /** No operation failed from step `from` to now. */
    ghost predicate NoFault(from: nat)
      reads this
    {
      Clean(faults, from, step)
    }

    /** An operation that leaves the files alone. */
    method Attempt() returns (ok: bool)
      modifies this`step
      ensures step == old(step) + 1 && ok == !faults(old(step))
    {
      ok := !faults(step);
      step := step + 1;
    }

    /** A command that is run if it is needed, as those on the service are when the manager was
        running. */
    method Run(deed: Deed, needed: bool) returns (ok: bool)
      modifies this`step, this`log
      ensures step >= old(step) && (ok <==> NoFault(old(step)))
      ensures !needed ==> ok
      ensures log == if ok && needed then old(log) + [deed] else old(log)
    {
      ok := true;
      if needed {
        ok := Attempt();
        if ok { log := log + [deed]; }
      }
    }

    /** Installation and restart, up to the announced version. */
    method Restart(running: bool, version: string) returns (ok: bool)
      modifies this`step, this`log
      ensures step >= old(step) && (ok <==> NoFault(old(step)))
      ensures ok ==> log == old(log) + Restarting(running, version)
      ensures old(log) <= log
    {
      ok := Run(MakeInstall, true);
      if !ok { return; }
      ok := Run(StartService, running);
      if !ok { return; }
      ok := Run(Announced(version), running);
    }

    /** One file is written aside and moved over its target; the temporary is removed. */
    method ReplaceFile(content: string, name: string) returns (ok: bool)
      modifies this`files, this`temporaries, this`unremoved, this`step
      ensures step >= old(step) && (ok ==> NoFault(old(step)))
      ensures files == old(files) || files == old(files)[name := Regular(content)]
      ensures ok ==> files == old(files)[name := Regular(content)]
      ensures !ok ==> !(old(Replaceable(files, [name])) && NoFault(old(step)))
      ensures temporaries != old(temporaries) ==> !ok && step > 0 && faults(step - 1)
      ensures 0 <= temporaries - old(temporaries) <= unremoved - old(unremoved)
    {
      if name in files && files[name].Irregular? {
        assert name in [name];
        return false;
      }
      var created := Attempt();
      if !created { return false; }
      temporaries := temporaries + 1;
      var written := Attempt();
      var moved := false;
      if written {
        moved := Attempt();
        if moved {
          files := files[name := Regular(content)];
          temporaries := temporaries - 1;
        }
      }
      var removed := Attempt();
      if !removed { unremoved := unremoved + 1; }
      if removed && !moved {
        temporaries := temporaries - 1;
      }
      ok := moved && removed;
    }

    /** Whatever fails, the names before some point hold their staged content and the rest
        what they held. */
    method ReplaceFiles(staged: map<string, string>, names: seq<string>) returns (ok: bool, ghost done: nat)
      requires forall n :: n in names ==> n in staged
      modifies this`files, this`temporaries, this`unremoved, this`step
      ensures step >= old(step) && (ok ==> NoFault(old(step)))
      ensures done <= |names| && files == Overlay(old(files), staged, names[..done])
      ensures ok ==> done == |names|
      ensures !ok ==> !(old(Replaceable(files, names)) && NoFault(old(step)))
      ensures temporaries != old(temporaries) ==> !ok && step > 0 && faults(step - 1)
      ensures 0 <= temporaries - old(temporaries) <= unremoved - old(unremoved)
    {
      for i := 0 to |names|
        invariant files == Overlay(old(files), staged, names[..i])
        invariant NoFault(old(step)) && temporaries == old(temporaries) && unremoved >= old(unremoved)
      {
        OverlayNext(old(files), staged, names, i);
        OverlayReplaceable(old(files), staged, names, i);
        var replaced := ReplaceFile(staged[names[i]], names[i]);
        if !replaced {
          return false, if files == Overlay(old(files), staged, names[..i]) then i else i + 1;
        }
      }
      return true, |names|;
    }

    /** The regular files are copied; anything else among `names` is refused. */
    method SaveFiles(names: seq<string>) returns (ok: bool, backup: map<string, string>)
      modifies this`step
      ensures step >= old(step)
      ensures ok ==> Replaceable(files, names) && backup == Copied(files, names)
      ensures ok <==> Replaceable(files, names) && NoFault(old(step))
    {
      backup := map[];
      for i := 0 to |names|
        invariant NoFault(old(step))
        invariant Replaceable(files, names[..i]) && backup == Copied(files, names[..i])
      {
        assert names[..i + 1] == names[..i] + [names[i]];
        if names[i] in files {
          if files[names[i]].Irregular? { return false, backup; }
          var copied := Attempt();
          if !copied { return false, backup; }
          backup := backup[names[i] := files[names[i]].content];
        }
      }
      assert names[..|names|] == names;
      ok := true;
    }

    /** Saved names are copied back and the others removed; only `names` are touched. */
    method RestoreFiles(backup: map<string, string>, names: seq<string>) returns (ok: bool)
      modifies this`files, this`step
      ensures step >= old(step) && (ok <==> NoFault(old(step)))
      ensures SameElsewhere(old(files), files, names)
      ensures ok ==> AsSaved(files, backup, names)
    {
      for i := 0 to |names|
        invariant NoFault(old(step))
        invariant SameElsewhere(old(files), files, names)
        invariant AsSaved(files, backup, names[..i])
      {
        assert names[..i + 1] == names[..i] + [names[i]];
        var name, now := names[i], step;
        ok := Attempt();
        if !ok {
          if name in backup && debris(now).Some? {
            files := files[name := Regular(debris(now).value)];
          }
          return;
        }
        if name in backup {
          files := files[name := Regular(backup[name])];
        } else {
          files := files - {name};
        }
      }
      assert names[..|names|] == names;
      ok := true;
    }

    /** The way back: the saved files return and the service restarts with the old version. */
    method RollBack(backup: map<string, string>, listing: seq<string>, running: bool, version: string)
      returns (ok: bool)
      modifies this`files, this`step, this`log
      ensures step >= old(step) && (ok <==> NoFault(old(step)))
      ensures SameElsewhere(old(files), files, listing)
      ensures ok ==> AsSaved(files, backup, listing)
      ensures ok ==> log == old(log) + Stopping(running) + [FilesRestored] + Restarting(running, version)
    {
      ok := Run(StopService, running);
      if !ok { return; }
      ok := RestoreFiles(backup, listing);
      if !ok { return; }
      log := log + [FilesRestored];
      ok := Restart(running, version);
    }

    /** The way forward: staged files, installation, restart, announced version. */
    method RollForward(staged: map<string, string>, listing: seq<string>, running: bool, version: string)
      returns (ok: bool)
      requires forall n :: n in listing ==> n in staged
      modifies this`files, this`temporaries, this`unremoved, this`step, this`log
      ensures step >= old(step)
      ensures SameElsewhere(old(files), files, listing)
      ensures ok ==> files == Overlay(old(files), staged, listing) && temporaries == old(temporaries)
      ensures old(Replaceable(files, listing)) ==> (ok <==> NoFault(old(step)))
      ensures 0 <= temporaries - old(temporaries) <= unremoved - old(unremoved)
      ensures ok ==> log == old(log) + [FilesReplaced] + Restarting(running, version)
      ensures old(log) <= log
    {
      var names := Sort(StringLeq, listing);
      OverlaySame(files, staged, listing, names);
      ghost var done;
      ok, done := ReplaceFiles(staged, names);
      OverlayElsewhere(old(files), staged, names, done);
      assert names[..|names|] == names;
      if !ok { return; }
      log := log + [FilesReplaced];
      ok := Restart(running, version);
    }

    /** Either every distributed file is the staged one, or a successful rollback leaves the
        directory as it was, or the backup holds all that was there. Nothing else is touched,
        and a temporary file stays behind only if its removal failed. The service is stopped
        before the files change, and runs again with the version that is then installed. */
    method Apply(staged: map<string, string>, version: string, listing: seq<string>, running: bool,
                 reading: Node -> Option<string>)
      returns (outcome: Outcome, backup: map<string, string>)
      requires forall n :: n in listing ==> n in staged
      modifies this`files, this`temporaries, this`unremoved, this`step, this`log
      ensures step >= old(step) && !outcome.UpToDate?
      ensures Safe(old(files), files, outcome, backup, listing)
      ensures outcome.Updated? ==> files == Overlay(old(files), staged, listing) && temporaries == old(temporaries)
      ensures !outcome.Rejected? ==> backup == Copied(old(files), listing) && old(Replaceable(files, listing))
      ensures 0 <= temporaries - old(temporaries) <= unremoved - old(unremoved)
      ensures outcome.Updated? <==>
              old(Replaceable(files, listing)) && old(Installed(files, reading)).Some? && NoFault(old(step))
      ensures Serviced(old(log), log, outcome, running, version, old(Written(files, reading)))
    {
      backup := map[];
      var ok := Attempt();
      if !ok || Installed(files, reading).None? { return Rejected, backup; }
      var oldVersion := Written(files, reading);
      ok, backup := Prepare(listing, running);
      if !ok { return Rejected, backup; }
      ghost var between := step;
      ok := RollForward(staged, listing, running, version);
      CleanJoin(faults, old(step), between, step);
      if ok { return Updated, backup; }
      ghost var failed, late, logged := files, step, log;
      ok := RollBack(backup, listing, running, oldVersion);
      CleanJoin(faults, old(step), late, step);
      ElsewhereTransitive(old(files), failed, files, listing);
      if !ok { return RecoveryNeeded, backup; }
      RestoredIsOriginal(old(files), files, listing);
      assert log == logged + Stopping(running) + [FilesRestored] + Restarting(running, oldVersion);
      return RolledBack, backup;
    }

    /** What comes before the first change: the backup, and the end of the service. */
    method Prepare(listing: seq<string>, running: bool) returns (ok: bool, backup: map<string, string>)
      modifies this`step, this`log
      ensures step >= old(step)
      ensures ok ==> backup == Copied(files, listing) && log == old(log) + Stopping(running)
      ensures !ok ==> log == old(log)
      ensures ok <==> Replaceable(files, listing) && NoFault(old(step))
    {
      ok := Attempt();
      if !ok { return false, map[]; }
      ok, backup := SaveFiles(listing);
      if !ok { return; }
      ok := Run(StopService, running);
    }

    /** An archive that does not match its manifest is refused; another one is applied. */
    method Install(release: Release, names: set<string>, listing: seq<string>, running: bool,
                   reading: Node -> Option<string>)
      returns (outcome: Outcome, backup: map<string, string>)
      requires Enumerates(listing, names)
      modifies this`files, this`temporaries, this`unremoved, this`step, this`log
      ensures step >= old(step) && !outcome.UpToDate?
      ensures Safe(old(files), files, outcome, backup, listing)
      ensures outcome.Updated? ==>
                Delivered(release, old(files), files, listing, reading) && temporaries == old(temporaries)
      ensures files != old(files) ==> Consistent(release, names, reading)
      ensures outcome.RecoveryNeeded? ==> old(Replaceable(files, listing))
      ensures Serviced(old(log), log, outcome, running, release.version, old(Written(files, reading)))
      ensures 0 <= temporaries - old(temporaries) <= unremoved - old(unremoved)
      ensures outcome.Updated? <==>
                && Consistent(release, names, reading) && old(Installed(files, reading)).Some?
                && old(Replaceable(files, listing)) && NoFault(old(step))
    {
      var ok := Attempt();
      if !ok || !Consistent(release, names, reading) { return Rejected, map[]; }
      OverlayInstalled(files, release, names, listing, reading);
      ghost var between := step;
      outcome, backup := Apply(release.archive, release.version, listing, running, reading);
      CleanJoin(faults, old(step), between, step);
    }

    /** A release is applied only over an older one, and then its version is installed. */
    method Update(offer: Option<Release>, listing: seq<string>, running: bool, reading: Node -> Option<string>)
      returns (outcome: Outcome, backup: map<string, string>)
      requires Enumerates(listing, FILES)
      modifies this`files, this`temporaries, this`unremoved, this`step, this`log
      ensures Safe(old(files), files, outcome, backup, listing)
      ensures !outcome.Rejected? ==> offer.Some?
      ensures !outcome.Rejected? ==>
                Serviced(old(log), log, outcome, running, offer.value.version, old(Written(files, reading)))
      ensures outcome.Rejected? ==> log == old(log)
      ensures outcome.Updated? ==> offer.Some? && Delivered(offer.value, old(files), files, listing, reading)
      ensures outcome.Updated? ==> temporaries == old(temporaries)
      ensures 0 <= temporaries - old(temporaries) <= unremoved - old(unremoved)
      ensures Plainly(old(files), files, outcome, backup, offer, reading)
      ensures !outcome.RecoveryNeeded? ==> Moves(old(files), files, reading)
      ensures files != old(files) ==>
                && offer.Some? && Consistent(offer.value, FILES, reading)
                && old(Decide(offer.value, files, reading)) == Proceed
      ensures outcome.Updated? <==>
                && offer.Some? && Consistent(offer.value, FILES, reading)
                && old(Decide(offer.value, files, reading)) == Proceed
                && old(Replaceable(files, listing)) && NoFault(old(step))
      ensures outcome.UpToDate? <==>
                && offer.Some? && old(Decide(offer.value, files, reading)) == Same && NoFault(old(step))
    {
      backup := map[];
      var decision := Judge(offer, reading);
      ghost var between := step;
      match decision
      case Refuse => outcome := Rejected;
      case Same => outcome := UpToDate;
      case Proceed =>
        outcome, backup := Install(offer.value, FILES, listing, running, reading);
        CleanJoin(faults, old(step), between, step);
        if outcome.Updated? {
          DeliveredMoves(offer.value, old(files), files, listing, reading);
        }
        ProceedsIffBehind(offer.value, old(files), reading);
        InstalledPlainly(old(files), files, outcome, backup, offer.value, listing, reading);
    }

    /** The download and the comparison of versions. */
    method Judge(offer: Option<Release>, reading: Node -> Option<string>) returns (decision: Decision)
      modifies this`step
      ensures step >= old(step)
      ensures decision == if NoFault(old(step)) && offer.Some? then Decide(offer.value, files, reading) else Refuse
      ensures decision != Refuse ==> NoFault(old(step))
      ensures decision == Proceed ==> Installed(files, reading).Some?
    {
      var ok := Attempt();
      decision := if ok && offer.Some? then Decide(offer.value, files, reading) else Refuse;
    }
  }
}
