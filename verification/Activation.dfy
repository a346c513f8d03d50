/** _provision_node_impl: staging, activation and rollback of an Agent installation.

    Staging and activation run under an arbitrary fault schedule. Where the source cleans
    up or rolls back, the schedule is emptied: those calls are assumed to succeed. */
module Activation {
  import opened Common
  import opened RemoteFiles
  import opened Rollback

  datatype Status = Provisioning | Completed | ProvisionFailed

  /** The columns of a node row that provisioning compares and sets. */
  datatype Row = Row(token: Option<int>, status: Status)

  class NodeRow {
    var row: Row

    constructor (row: Row)
      ensures this.row == row
    {
      this.row := row;
    }

    /** The activation: set the token if the row is as it was read, and still provisioning. */
    method Enter(expected: Option<int>, value: Option<int>) returns (changed: bool)
      modifies this`row
      ensures changed <==> old(row) == Row(expected, Provisioning)
      ensures row == if changed then Row(value, Provisioning) else old(row)
    {
      changed := row.status.Provisioning? && row.token == expected;
      if changed { row := row.(token := value); }
    }

    /** The completion, guarded by the activated token. */
    method Finish(expected: Option<int>) returns (changed: bool)
      modifies this`row
      ensures changed <==> old(row) == Row(expected, Provisioning)
      ensures row == if changed then Row(expected, Completed) else old(row)
    {
      changed := row.status.Provisioning? && row.token == expected;
      if changed { row := row.(status := Completed); }
    }

    /** The rollback takes its own token back, whatever the status says by then. */
    method Withdraw(expected: Option<int>, value: Option<int>)
      modifies this`row
      ensures row == if old(row).token == expected then old(row).(token := value) else old(row)
    {
      if row.token == expected { row := row.(token := value); }
    }

    /** The outermost handler marks a row that is still provisioning as failed. */
    method Fail()
      modifies this`row
      ensures row == if old(row).status.Provisioning? then old(row).(status := ProvisionFailed) else old(row)
    {
      if row.status.Provisioning? { row := row.(status := ProvisionFailed); }
    }
  }

  predicate SamePaths(a: seq<Entry>, b: seq<Entry>) {
    |a| == |b| && forall k :: 0 <= k < |a| ==>
      b[k].(stageCreated := a[k].stageCreated, backupCreated := a[k].backupCreated, installed := a[k].installed) == a[k]
  }

  /** Not a path that staging creates. */
  predicate NotStage(es: seq<Entry>, venv: Venv, p: Path) {
    p != venv.stage && forall k :: 0 <= k < |es| ==> p != es[k].temporary
  }

  ghost predicate FreshStart(base: Files, es: seq<Entry>, venv: Venv) {
    && PathsDistinct(es, venv) && NoLeftovers(base, es, venv)
    && (forall k :: 0 <= k < |es| ==> es[k].Pristine())
    && !venv.backupCreated && !venv.installed
  }

  /** Best-effort removal of the staged files that were created. */
  method RemoveStaged(remote: Remote, es: seq<Entry>, venv: Venv)
    requires PathsDistinct(es, venv)
    modifies remote`files, remote`faults, remote`history
    ensures forall p :: Kept(es, p) ==> SameAt(old(remote.files), remote.files, p)
    ensures old(remote.faults) == [] ==> remote.faults == []
    ensures Faultless(old(remote.faults)) ==>
      && Faultless(remote.faults)
      && forall k :: 0 <= k < |es| && es[k].stageCreated ==> es[k].temporary !in remote.files
  {
    var i := 0;
    while i < |es|
      invariant i <= |es|
      invariant forall p :: Kept(es, p) ==> SameAt(old(remote.files), remote.files, p)
      invariant old(remote.faults) == [] ==> remote.faults == []
      invariant Faultless(old(remote.faults)) ==>
        && Faultless(remote.faults)
        && forall k :: 0 <= k < i && es[k].stageCreated ==> es[k].temporary !in remote.files
    {
      if es[i].stageCreated {
        ghost var before := remote.files;
        remote.Cleanup(es[i].temporary);
        forall p | Kept(es, p) ensures SameAt(old(remote.files), remote.files, p) {
          assert SameAt(old(remote.files), before, p);
          assert p != es[i].temporary;
        }
      }
      i := i + 1;
    }
  }

  /** Nothing differs but paths that staging creates. */
  ghost predicate OnlyStage(base: Files, fs: Files, es: seq<Entry>, venv: Venv) {
    forall p :: NotStage(es, venv, p) ==> SameAt(base, fs, p)
  }

  /** The first `n` payloads are in their temporaries, the others are not there yet. */
  predicate StagedUpTo(fs: Files, es: seq<Entry>, n: nat)
    requires n <= |es|
  {
    && (forall k :: 0 <= k < n ==> es[k].stageCreated && es[k].temporary in fs && fs[es[k].temporary] == es[k].Staged())
    && (forall k :: n <= k < |es| ==> es[k].temporary !in fs && !es[k].stageCreated)
  }

  /** A temporary that exists although its upload was reported as failed. */
  predicate Stray(fs: Files, e: Entry) { !e.stageCreated && e.temporary in fs }

  predicate AnyStray(fs: Files, es: seq<Entry>) { exists k :: 0 <= k < |es| && Stray(fs, es[k]) }

  // The calls of an activation in order; `true` marks one that leaves a trace the code does not know of
  // when it takes effect and reports failure.

  const UPLOAD_CALLS: seq<bool> := [true, false, false]   // create, write, stat

  function UploadCalls(n: nat): seq<bool> { if n == 0 then [] else UPLOAD_CALLS + UploadCalls(n - 1) }

  const TREE_CALLS: seq<bool> := [false, false, false]    // virtualenv, is-active, is-enabled

  method StageOne(remote: Remote, e: Entry) returns (ok: bool, e': Entry)
    requires e.temporary !in remote.files && !e.stageCreated && !remote.torn
    modifies remote
    ensures Ran(old(remote.faults), UPLOAD_CALLS, remote.faults, ok, remote.torn)
    ensures e'.(stageCreated := false) == e
    ensures SameOutside(old(remote.files), remote.files, {e.temporary})
    ensures ok ==> e'.stageCreated && e.temporary in remote.files && remote.files[e.temporary] == e.Staged()
    ensures !ok ==> (remote.torn <==> Stray(remote.files, e'))
  {
    hide Hit, Passes, After;
    ThreeCalls(remote.faults, true, false, false);
    e' := e;
    var reply := remote.Write(e.temporary, File([], 0x180, false));
    if reply != Ok { return false, e'; }
    e' := e.(stageCreated := true);
    reply := remote.Put(e.temporary, e.Staged());
    if reply == Ok { reply := remote.Ask(); }
    ok := reply == Ok;
  }

  /** `n` uploads have been tried, and `ok` unless the last of them failed. */
  ghost predicate Staging(base: Files, fs: Files, es0: seq<Entry>, es: seq<Entry>, venv: Venv, n: nat,
                          ok: bool, torn: bool)
  {
    && n <= |es| && SamePaths(es0, es) && PathsDistinct(es, venv) && (forall k :: 0 <= k < |es| ==> es[k].Pristine())
    && venv.stage !in fs && OnlyStage(base, fs, es0, venv)
    && if ok then !torn && StagedUpTo(fs, es, n) else torn <==> AnyStray(fs, es)
  }

  lemma OnlyStageGrows(base: Files, before: Files, after: Files, es0: seq<Entry>, venv: Venv, n: nat)
    requires n < |es0| && OnlyStage(base, before, es0, venv) && SameOutside(before, after, {es0[n].temporary})
    ensures OnlyStage(base, after, es0, venv)
  {
    forall p | NotStage(es0, venv, p) ensures SameAt(base, after, p) {
      assert p != es0[n].temporary;
      assert SameAt(base, before, p) && SameAt(before, after, p);
    }
  }

  lemma StillDistinct(es: seq<Entry>, venv: Venv, n: nat, e': Entry)
    requires PathsDistinct(es, venv) && n < |es|
    requires e'.target == es[n].target && e'.temporary == es[n].temporary && e'.backup == es[n].backup
    ensures PathsDistinct(es[n := e'], venv)
  {
    var es' := es[n := e'];
    assert EntryDistinct(es[n], venv);
    forall j, k | 0 <= j < |es'| && 0 <= k < |es'| && j != k ensures Apart(es'[j], es'[k]) {
      assert Apart(es[j], es[k]);
    }
  }

  lemma StagingGoesOn(base: Files, before: Files, after: Files, es0: seq<Entry>, es: seq<Entry>, e': Entry,
                      venv: Venv, n: nat, ok: bool, torn: bool)
    requires Staging(base, before, es0, es, venv, n, true, false) && n < |es|
    requires e'.(stageCreated := false) == es[n] && SameOutside(before, after, {es[n].temporary})
    requires if ok then !torn && e'.stageCreated && e'.temporary in after && after[e'.temporary] == e'.Staged()
             else torn <==> Stray(after, e')
    ensures Staging(base, after, es0, es[n := e'], venv, n + 1, ok, torn)
  {
    hide OnlyStage;
    OnlyOneTemporary(es, venv, n);
    var es' := es[n := e'];
    StillDistinct(es, venv, n, e');
    OnlyStageGrows(base, before, after, es0, venv, n);
    hide PathsDistinct;
    assert SameAt(before, after, venv.stage);
    forall k | 0 <= k < |es| && k != n ensures SameAt(before, after, es[k].temporary) {}
    if !ok {
      assert forall k :: 0 <= k < |es'| && k != n ==> !Stray(after, es'[k]);
      hide Stray, SamePaths, SameOutside;
      OneMayBeStray(after, es', n);
    }
  }

  lemma OneMayBeStray(fs: Files, es: seq<Entry>, n: nat)
    requires n < |es| && forall k :: 0 <= k < |es| && k != n ==> !Stray(fs, es[k])
    ensures AnyStray(fs, es) <==> Stray(fs, es[n])
  {
    hide Stray;
  }

  /** Upload every payload next to its target. */
  method StageFiles(remote: Remote, es0: seq<Entry>, venv: Venv) returns (ok: bool, es: seq<Entry>, ghost n: nat)
    requires FreshStart(remote.files, es0, venv) && !remote.torn
    requires forall k :: 0 <= k < |es0| ==> !es0[k].stageCreated
    modifies remote
    ensures Ran(old(remote.faults), UploadCalls(|es0|), remote.faults, ok, remote.torn)
    ensures Staging(old(remote.files), remote.files, es0, es, venv, n, ok, remote.torn) && (ok ==> n == |es|)
  {
    es, ok, n := es0, true, 0;
    var i := 0;
    while i < |es| && ok
      invariant n == i <= |es| == |es0|
      invariant Staging(old(remote.files), remote.files, es0, es, venv, n, ok, remote.torn)
      invariant if ok then Leaves(old(remote.faults), UploadCalls(|es|), remote.faults, UploadCalls(|es| - i))
                else Ran(old(remote.faults), UploadCalls(|es|), remote.faults, ok, remote.torn)
    {
      ghost var before, now := remote.files, remote.faults;
      var e';
      ok, e' := StageOne(remote, es[i]);
      LeavesNext(old(remote.faults), UploadCalls(|es|), now, UPLOAD_CALLS, UploadCalls(|es| - i - 1),
                 remote.faults, ok, remote.torn);
      StagingGoesOn(old(remote.files), before, remote.files, es0, es, e', venv, i, ok, remote.torn);
      es := es[i := e'];
      i, n := i + 1, i + 1;
    }
  }

  function StageCalls(es: seq<Entry>): seq<bool> { UploadCalls(|es|) + TREE_CALLS }

  /** What activation starts from. */
  ghost predicate ReadyToPlace(base: Files, fs: Files, es: seq<Entry>, v: Venv) {
    && PathsDistinct(es, v) && AllReady(base, fs, es) && NoLeftovers(base, es, v)
    && VenvOriginal(base, fs, v) && v.stage in fs && !v.backupCreated && !v.installed
    && SameForeign(base, fs, es, v) && forall k :: 0 <= k < |es| ==> es[k].stageCreated
  }

  /** Staging: the payloads, then the new virtualenv aside, then the service state. */
  method StageAll(remote: Remote, es0: seq<Entry>, venv: Venv, tree: File) returns (ok: bool, es: seq<Entry>)
    requires FreshStart(remote.files, es0, venv) && !remote.torn
    requires forall k :: 0 <= k < |es0| ==> !es0[k].stageCreated
    modifies remote
    ensures ok <==> Passes(old(remote.faults), |StageCalls(es0)|)
    ensures ok ==> remote.faults == After(old(remote.faults), |StageCalls(es0)|)
    ensures remote.torn <==> Hit(old(remote.faults), StageCalls(es0))
    ensures SamePaths(es0, es)
    ensures ok ==> !remote.torn && ReadyToPlace(old(remote.files), remote.files, es, venv)
    ensures ok ==> venv.stage in remote.files && remote.files[venv.stage] == tree
    ensures !ok ==> (remote.files == old(remote.files) <==> !remote.torn)
    ensures !ok ==> SameForeign(old(remote.files), remote.files, es0, venv)
  {
    hide Hit, Passes, After;
    ghost var base := remote.files;
    ghost var n;
    ok, es, n := StageFiles(remote, es0, venv);
    if !ok { RanOn(old(remote.faults), UploadCalls(|es0|), TREE_CALLS, remote.faults, ok, remote.torn); }
    if ok {
      ThreeCalls(remote.faults, false, false, false);
      var reply := remote.Put(venv.stage, tree);
      if reply == Ok { reply := remote.Ask(); }
      if reply == Ok { reply := remote.Ask(); }
      RanOn(old(remote.faults), UploadCalls(|es0|), TREE_CALLS, remote.faults, reply == Ok, remote.torn);
      StageTreeFrame(base, es0, es, venv, tree);
      if reply == Ok {
        StagedIsReady(base, remote.files, es0, es, venv);
        return;
      }
      ok := false;
      assert !AnyStray(remote.files, es) by {
        forall k | 0 <= k < |es| ensures !Stray(remote.files, es[k]) { OnlyOneTemporary(es, venv, k); }
      }
    }
    ghost var broken := remote.files;
    remote.faults := [];
    RemoveStaged(remote, es, venv);
    remote.Cleanup(venv.stage);
    StagingUndone(base, broken, remote.files, es0, es, venv);
  }

  lemma StageTreeFrame(base: Files, es0: seq<Entry>, es: seq<Entry>, venv: Venv, tree: File)
    requires PathsDistinct(es, venv) && SamePaths(es0, es)
    ensures forall fs: Files :: OnlyStage(base, fs, es0, venv) ==> OnlyStage(base, fs[venv.stage := tree], es0, venv)
    ensures forall fs: Files :: StagedUpTo(fs, es, |es|) ==> StagedUpTo(fs[venv.stage := tree], es, |es|)
  {
    forall k | 0 <= k < |es| ensures es[k].temporary != venv.stage { OnlyOneTemporary(es, venv, k); }
    forall fs: Files, p | OnlyStage(base, fs, es0, venv) && NotStage(es0, venv, p)
      ensures SameAt(base, fs[venv.stage := tree], p)
    {
      assert SameAt(base, fs, p);
    }
  }

  lemma StageOnly(base: Files, fs: Files, es0: seq<Entry>, es: seq<Entry>, venv: Venv)
    requires SamePaths(es0, es) && OnlyStage(base, fs, es0, venv)
    ensures OnlyStage(base, fs, es, venv)
  {
    forall p | NotStage(es, venv, p) ensures SameAt(base, fs, p) {
      forall k | 0 <= k < |es0| ensures p != es0[k].temporary { assert p != es[k].temporary; }
      assert NotStage(es0, venv, p);
    }
  }

  predicate Kept(es: seq<Entry>, p: Path) { forall k :: 0 <= k < |es| ==> p != es[k].temporary || !es[k].stageCreated }

  lemma StagingUndone(base: Files, broken: Files, end: Files, es0: seq<Entry>, es: seq<Entry>, venv: Venv)
    requires PathsDistinct(es, venv) && NoLeftovers(base, es0, venv) && SamePaths(es0, es)
    requires OnlyStage(base, broken, es0, venv)
    requires forall p :: p != venv.stage && Kept(es, p) ==> SameAt(broken, end, p)
    requires forall k :: 0 <= k < |es| && es[k].stageCreated ==> es[k].temporary !in end
    requires venv.stage !in end
    ensures end == base <==> !AnyStray(broken, es)
    ensures SameForeign(base, end, es0, venv)
  {
    StageOnly(base, broken, es0, es, venv);
    forall p | Elsewhere(es0, p) && OutsideVenv(p, venv) ensures SameAt(base, end, p) {
      forall k | 0 <= k < |es| ensures p != es[k].temporary { assert p != es0[k].temporary; }
      assert NotStage(es, venv, p) && Kept(es, p);
      assert SameAt(base, broken, p) && SameAt(broken, end, p);
    }
    forall k | 0 <= k < |es| && !es[k].stageCreated ensures es[k].temporary in broken <==> es[k].temporary in end {
      OnlyOneTemporary(es, venv, k);
      assert Kept(es, es[k].temporary);
    }
    assert forall k :: 0 <= k < |es| ==> es[k].temporary !in base by {
      forall k | 0 <= k < |es| ensures es[k].temporary !in base { assert es0[k].temporary !in base; }
    }
    if AnyStray(broken, es) {
      var k :| 0 <= k < |es| && Stray(broken, es[k]);
      assert es[k].temporary in end && es[k].temporary !in base;
      return;
    }
    forall p ensures SameAt(base, end, p) {
      if p != venv.stage {
        if k :| 0 <= k < |es| && p == es[k].temporary {
          assert !Stray(broken, es[k]);
        } else {
          assert NotStage(es, venv, p) && Kept(es, p);
          assert SameAt(base, broken, p) && SameAt(broken, end, p);
        }
      }
    }
    SameEverywhere(base, end);
  }

  lemma OnlyOneTemporary(es: seq<Entry>, venv: Venv, k: nat)
    requires PathsDistinct(es, venv) && k < |es|
    ensures es[k].temporary != venv.stage
    ensures forall j :: 0 <= j < |es| && j != k ==> es[j].temporary != es[k].temporary
  {
    assert EntryDistinct(es[k], venv);
    forall j | 0 <= j < |es| && j != k ensures es[j].temporary != es[k].temporary { assert Apart(es[j], es[k]); }
  }

  // ---- activation ------------------------------------------------------------------

  /** Ready to be put in place: staged, and nothing of it at its target yet. */
  predicate Ready(base: Files, fs: Files, e: Entry) {
    && e.Pristine() && Original(base, fs, e) && e.backup !in base
    && e.temporary in fs && fs[e.temporary] == e.Staged()
  }

  const IN_PLACE_CALLS: seq<bool> := [false, false, true]  // chmod, stat, then the backup or the rename

  /** A target that exists is backed up and replaced, where the server can replace; a new one is renamed in. */
  function EntryCalls(base: Files, e: Entry, posix: bool): seq<bool> {
    IN_PLACE_CALLS + (if e.target in base && posix then [base[e.target] != e.New()] else [])
  }

  /** As `Ran`, for calls that also stop where a target cannot be replaced. */
  predicate Installed(before: seq<Fault>, calls: seq<bool>, possible: bool, after: seq<Fault>, ok: bool, torn: bool) {
    && (ok <==> Passes(before, |calls|) && possible)
    && (ok ==> after == After(before, |calls|))
    && (torn <==> Hit(before, calls))
  }

  predicate Replaceable(base: Files, e: Entry, posix: bool) { posix || e.target !in base }

  lemma EntryCallByCall(base: Files, e: Entry, posix: bool, faults: seq<Fault>)
    ensures var calls, three := EntryCalls(base, e, posix), Later(Later(Later(faults)));
      var f0, f1, f2, f3 := NextFault(faults), NextFault(Later(faults)), NextFault(Later(Later(faults))),
        NextFault(three);
      var overwrites := e.target in base && posix;
      && (Hit(faults, calls) <==>
          f0.Fine? && f1.Fine? &&
          if f2.Fine? then overwrites && !f3.Fine? && f3.effect && base[e.target] != e.New() else f2.effect)
      && (Passes(faults, |calls|) <==> f0.Fine? && f1.Fine? && f2.Fine? && (overwrites ==> f3.Fine?))
      && After(faults, |calls|) == if overwrites then Later(three) else three
  {
    ThreeCalls(faults, false, false, true);
    var last := EntryCalls(base, e, posix)[3..];
    HitAppend(faults, IN_PLACE_CALLS, last);
    PassesInTwo(faults, 3, |last|);
    OneCall(After(faults, 3), last == [true]);
  }

  /** One turn of the activation loop: `e` became `e'`, which the rollback gets to see if `activated`. */
  ghost predicate Turn(base: Files, before: Files, after: Files, e: Entry, e': Entry, posix: bool,
                       ok: bool, activated: bool, torn: bool)
  {
    && SameOutside(before, after, e.Paths())
    && e'.(backupCreated := false, installed := false) == e
    && (e'.installed && e'.backupCreated ==> posix)
    && (ok ==> activated && !torn && e'.installed && AsFlagged(base, after, e') && e.temporary !in after)
    && (!ok ==> if torn then activated && BehindFiles(base, after, e') else AsFlagged(base, after, e'))
    && (!activated ==> e' == e && !torn && Original(base, after, e))
  }

  /** The end of a turn for a target that exists. */
  method Overwrite(remote: Remote, e: Entry, ghost base: Files) returns (ok: bool, e': Entry)
    requires e.Pristine() && Original(base, remote.files, e) && e.target in base && !remote.torn
    requires e.temporary in remote.files && remote.files[e.temporary] == e.New()
    requires e.target != e.temporary && e.target != e.backup && e.temporary != e.backup
    modifies remote
    ensures Turn(base, old(remote.files), remote.files, e, e', remote.posixRename, ok, true, remote.torn)
    ensures var f0, f1 := NextFault(old(remote.faults)), NextFault(Later(old(remote.faults)));
      && (ok <==> f0.Fine? && f1.Fine? && remote.posixRename)
      && (ok ==> remote.faults == Later(Later(old(remote.faults))))
      && (remote.torn <==>
          if f0.Fine? then remote.posixRename && !f1.Fine? && f1.effect && base[e.target] != e.New() else f0.effect)
  {
    ok, e' := false, e;
    var reply := remote.Write(e.backup, remote.files[e.target]);
    if reply != Ok { return; }
    e' := e'.(backupCreated := true);
    reply := remote.PosixRename(e.temporary, e.target);
    if reply != Ok { return; }
    e' := e'.(installed := true);
    ok := true;
  }

  /** The end of a turn for a target that does not. */
  method PutNew(remote: Remote, e: Entry, ghost base: Files) returns (ok: bool, e': Entry)
    requires e.Pristine() && Original(base, remote.files, e) && e.target !in base && !remote.torn
    requires e.temporary in remote.files && remote.files[e.temporary] == e.New()
    requires e.target != e.temporary && e.target != e.backup && e.temporary != e.backup
    modifies remote
    ensures Turn(base, old(remote.files), remote.files, e, e', remote.posixRename, ok, true, remote.torn)
    ensures var fault := NextFault(old(remote.faults));
      && (ok <==> fault.Fine?) && remote.faults == Later(old(remote.faults))
      && (remote.torn <==> !fault.Fine? && fault.effect)
  {
    ok, e' := false, e;
    var reply := remote.Rename(e.temporary, e.target);
    if reply != Ok { return; }
    e' := e'.(installed := true);
    ok := true;
  }

  method InstallEntry(remote: Remote, e: Entry, ghost base: Files) returns (ok: bool, activated: bool, e': Entry)
    requires Ready(base, remote.files, e) && !remote.torn
    requires e.target != e.temporary && e.target != e.backup && e.temporary != e.backup
    modifies remote
    ensures Turn(base, old(remote.files), remote.files, e, e', remote.posixRename, ok, activated, remote.torn)
    ensures Installed(old(remote.faults), EntryCalls(base, e, remote.posixRename),
                      Replaceable(base, e, remote.posixRename), remote.faults, ok, remote.torn)
  {
    ok, activated, e' := false, false, e;
    EntryCallByCall(base, e, remote.posixRename, remote.faults);
    hide EntryCalls, Passes, After, Hit;
    var reply := remote.Chmod(e.temporary, e.mode);
    if reply != Ok { return; }
    activated := true;
    var present;
    present, reply := remote.Exists(e.target);
    if reply != Ok { return; }
    if present {
      ok, e' := Overwrite(remote, e, base);
    } else {
      ok, e' := PutNew(remote, e, base);
    }
  }

  ghost predicate AllReady(base: Files, fs: Files, es: seq<Entry>) {
    forall k :: 0 <= k < |es| ==> Ready(base, fs, es[k])
  }

  predicate AnyBehind(base: Files, fs: Files, es: seq<Entry>) {
    exists k :: 0 <= k < |es| && BehindFiles(base, fs, es[k])
  }

  lemma ReadyElsewhere(base: Files, fs: Files, fs': Files, e: Entry)
    requires SameAt(fs, fs', e.target) && SameAt(fs, fs', e.backup) && SameAt(fs, fs', e.temporary)
    ensures Ready(base, fs, e) <==> Ready(base, fs', e)
    ensures Known(base, fs, e) <==> Known(base, fs', e)
    ensures AsFlagged(base, fs, e) <==> AsFlagged(base, fs', e)
    ensures BehindFiles(base, fs, e) <==> BehindFiles(base, fs', e)
  {
  }

  /** Installing entry `n` leaves every other entry as it was. */
  lemma OthersKeep(base: Files, before: Files, after: Files, es: seq<Entry>, venv: Venv, n: nat)
    requires PathsDistinct(es, venv) && n < |es| && SameOutside(before, after, es[n].Paths())
    ensures forall k :: 0 <= k < |es| && k != n ==>
      && (Ready(base, before, es[k]) <==> Ready(base, after, es[k]))
      && (Known(base, before, es[k]) <==> Known(base, after, es[k]))
      && (AsFlagged(base, before, es[k]) <==> AsFlagged(base, after, es[k]))
      && (es[k].temporary in before <==> es[k].temporary in after)
  {
    forall k | 0 <= k < |es| && k != n
      ensures Ready(base, before, es[k]) <==> Ready(base, after, es[k])
      ensures Known(base, before, es[k]) <==> Known(base, after, es[k])
      ensures AsFlagged(base, before, es[k]) <==> AsFlagged(base, after, es[k])
      ensures es[k].temporary in before <==> es[k].temporary in after
    {
      assert Apart(es[k], es[n]);
      assert SameAt(before, after, es[k].target) && SameAt(before, after, es[k].backup) &&
        SameAt(before, after, es[k].temporary);
      ReadyElsewhere(base, before, after, es[k]);
    }
  }

  predicate Elsewhere(es: seq<Entry>, p: Path) {
    forall k :: 0 <= k < |es| ==> p != es[k].target && p != es[k].temporary && p != es[k].backup
  }

  ghost predicate SameElsewhere(a: Files, b: Files, es: seq<Entry>) {
    forall p :: Elsewhere(es, p) ==> SameAt(a, b, p)
  }

  lemma FrameGrows(first: Files, before: Files, after: Files, es: seq<Entry>, n: nat)
    requires n < |es| && SameElsewhere(first, before, es) && SameOutside(before, after, es[n].Paths())
    ensures SameElsewhere(first, after, es)
  {
    forall p | Elsewhere(es, p) ensures SameAt(first, after, p) {
      assert SameAt(first, before, p) && p !in es[n].Paths() && SameAt(before, after, p);
    }
  }

  /** All entries before `n` are in place, the rest are ready. */
  predicate Progress(base: Files, fs: Files, es: seq<Entry>, n: nat, posix: bool)
    requires n <= |es|
  {
    && (forall k :: 0 <= k < n ==>
      && es[k].installed && AsFlagged(base, fs, es[k]) && es[k].temporary !in fs
      && es[k].backup !in base && (es[k].backupCreated ==> posix))
    && (forall k :: n <= k < |es| ==> Ready(base, fs, es[k]))
  }

  /** What a failed activation leaves for the rollback: `n` entries were activated. */
  predicate Stopped(base: Files, fs: Files, es: seq<Entry>, n: nat, posix: bool, torn: bool)
    requires n <= |es|
  {
    && (forall k :: 0 <= k < n ==>
      Known(base, fs, es[k]) && es[k].backup !in base && (es[k].installed && es[k].backupCreated ==> posix))
    && (forall k :: n <= k < |es| ==> es[k].Pristine() && Original(base, fs, es[k]))
    && (torn <==> AnyBehind(base, fs, es[..n]))
  }

  /** One more turn of the activation loop: entry `n` became `e'`. */
  lemma Advance(base: Files, before: Files, after: Files, es: seq<Entry>, venv: Venv, n: nat, e': Entry,
                posix: bool, ok: bool, activated: bool, torn: bool)
    requires PathsDistinct(es, venv) && n < |es| && Progress(base, before, es, n, posix)
    requires Turn(base, before, after, es[n], e', posix, ok, activated, torn)
    ensures PathsDistinct(es[n := e'], venv)
    ensures ok ==> Progress(base, after, es[n := e'], n + 1, posix)
    ensures !ok ==> Stopped(base, after, es[n := e'], if activated then n + 1 else n, posix, torn)
    ensures SameOutside(before, after, es[n].Paths())
    ensures e'.(backupCreated := false, installed := false) == es[n] && (ok ==> activated && !torn)
  {
    hide PathsDistinct, SameOutside, AsFlagged, BehindFiles, Original;
    OthersKeep(base, before, after, es, venv, n);
    StillDistinct(es, venv, n, e');
    if !ok { FailureIsLast(base, after, es[n := e'], if activated then n + 1 else n, activated, torn); }
  }

  /** Installation stops for good at the first target that exists on a server without POSIX rename. */
  function InstallCalls(base: Files, es: seq<Entry>, posix: bool): seq<bool> {
    if es == [] then [] else
    EntryCalls(base, es[0], posix) +
    (if Replaceable(base, es[0], posix) then InstallCalls(base, es[1..], posix) else [])
  }

  predicate AllReplaceable(base: Files, es: seq<Entry>, posix: bool) {
    forall k :: 0 <= k < |es| ==> Replaceable(base, es[k], posix)
  }

  lemma SameEntryCalls(base: Files, a: Entry, b: Entry, posix: bool)
    requires a.target == b.target && a.New() == b.New()
    ensures EntryCalls(base, a, posix) == EntryCalls(base, b, posix)
    ensures Replaceable(base, a, posix) == Replaceable(base, b, posix)
  {
  }

  /** Entry `n` has run; `e` is that entry with the flags it has then. */
  lemma InstallCallsNext(base: Files, es: seq<Entry>, n: nat, e: Entry, posix: bool, before: seq<Fault>,
                         now: seq<Fault>, after: seq<Fault>, ok: bool, torn: bool)
    requires n < |es| && e.target == es[n].target && e.New() == es[n].New()
    requires Leaves(before, InstallCalls(base, es, posix), now, InstallCalls(base, es[n..], posix))
    requires AllReplaceable(base, es[..n], posix)
    requires Installed(now, EntryCalls(base, e, posix), Replaceable(base, e, posix), after, ok, torn)
    ensures ok ==> !torn && AllReplaceable(base, es[..n + 1], posix)
    ensures ok ==> Leaves(before, InstallCalls(base, es, posix), after, InstallCalls(base, es[n + 1..], posix))
    ensures !ok ==>
      Installed(before, InstallCalls(base, es, posix), AllReplaceable(base, es, posix), after, ok, torn)
  {
    hide Hit, Passes, After, EntryCalls;
    var first := EntryCalls(base, e, posix);
    assert first == EntryCalls(base, es[n], posix) by { SameEntryCalls(base, e, es[n], posix); }
    assert es[n..][0] == es[n] && es[n..][1..] == es[n + 1..] && es[..n + 1] == es[..n] + [es[n]];
    var rest := if Replaceable(base, e, posix) then InstallCalls(base, es[n + 1..], posix) else [];
    assert InstallCalls(base, es[n..], posix) == first + rest;
    if Replaceable(base, e, posix) {
      assert AllReplaceable(base, es, posix) ==> AllReplaceable(base, es[..n + 1], posix);
    } else {
      assert first + rest == first;
      return;
    }
    HitAppend(now, first, rest);
    PassesInTwo(now, |first|, |rest|);
  }

  /** The same entries, staged alike. */
  predicate Continues(a: seq<Entry>, b: seq<Entry>) {
    SamePaths(a, b) && forall k :: 0 <= k < |b| ==> b[k].stageCreated == a[k].stageCreated
  }

  lemma ContinuesNext(es0: seq<Entry>, es: seq<Entry>, n: nat, e': Entry)
    requires Continues(es0, es) && n < |es| &&
      e'.(backupCreated := false, installed := false) == es[n].(backupCreated := false, installed := false)
    ensures Continues(es0, es[n := e']) && |es0| == |es| && es[n].Paths() == es0[n].Paths()
  {
  }

  /** The files and the schedule with `n` entries in place; `first` and `faults` are those before the first entry. */
  ghost predicate Installing(base: Files, first: Files, fs: Files, es0: seq<Entry>, es: seq<Entry>, venv: Venv, n: nat,
                             posix: bool, faults: seq<Fault>, now: seq<Fault>)
  {
    && n <= |es0| && Continues(es0, es) && PathsDistinct(es, venv)
    && Progress(base, fs, es, n, posix) && SameElsewhere(first, fs, es0)
    && AllReplaceable(base, es0[..n], posix)
    && Leaves(faults, InstallCalls(base, es0, posix), now, InstallCalls(base, es0[n..], posix))
  }

  /** How the installation of all entries ends. */
  ghost predicate InstallEnd(base: Files, first: Files, fs: Files, es0: seq<Entry>, es: seq<Entry>, venv: Venv, n: nat,
                             posix: bool, faults: seq<Fault>, now: seq<Fault>, ok: bool, torn: bool)
  {
    && n <= |es| && Continues(es0, es) && PathsDistinct(es, venv) && SameElsewhere(first, fs, es0)
    && Installed(faults, InstallCalls(base, es0, posix), AllReplaceable(base, es0, posix), now, ok, torn)
    && (ok ==> n == |es| && !torn && Progress(base, fs, es, n, posix))
    && (!ok ==> Stopped(base, fs, es, n, posix, torn))
  }

  lemma InstallStarts(base: Files, fs: Files, es: seq<Entry>, venv: Venv, posix: bool, faults: seq<Fault>)
    requires PathsDistinct(es, venv) && AllReady(base, fs, es)
    ensures Installing(base, fs, fs, es, es, venv, 0, posix, faults, faults)
  {
    assert es[0..] == es;
  }

  lemma InstallGoesOn(base: Files, first: Files, before: Files, after: Files, es0: seq<Entry>, es: seq<Entry>,
                      e': Entry, venv: Venv, n: nat, posix: bool, faults: seq<Fault>, now: seq<Fault>,
                      later: seq<Fault>, ok: bool, activated: bool, torn: bool)
    requires Installing(base, first, before, es0, es, venv, n, posix, faults, now) && n < |es|
    requires Turn(base, before, after, es[n], e', posix, ok, activated, torn)
    requires Installed(now, EntryCalls(base, es[n], posix), Replaceable(base, es[n], posix), later, ok, torn)
    ensures ok ==> activated && !torn
    ensures ok ==> Installing(base, first, after, es0, es[n := e'], venv, n + 1, posix, faults, later)
    ensures !ok ==> InstallEnd(base, first, after, es0, es[n := e'], venv, if activated then n + 1 else n, posix,
                               faults, later, ok, torn)
  {
    hide Progress, Stopped, SameElsewhere, AsFlagged, BehindFiles, PathsDistinct, SameOutside, Turn, AllReplaceable;
    hide InstallCalls, EntryCalls, Leaves, Installed, Passes, After, Hit;
    Advance(base, before, after, es, venv, n, e', posix, ok, activated, torn);
    ContinuesNext(es0, es, n, e');
    FrameGrows(first, before, after, es0, n);
    InstallCallsNext(base, es0, n, es[n], posix, faults, now, later, ok, torn);
  }

  lemma InstallEnds(base: Files, first: Files, fs: Files, es0: seq<Entry>, es: seq<Entry>, venv: Venv,
                    posix: bool, faults: seq<Fault>, now: seq<Fault>)
    requires Installing(base, first, fs, es0, es, venv, |es|, posix, faults, now)
    ensures InstallEnd(base, first, fs, es0, es, venv, |es|, posix, faults, now, true, false)
  {
    assert es0[..|es|] == es0;
  }

  method InstallAll(remote: Remote, es0: seq<Entry>, venv: Venv, ghost base: Files)
      returns (ok: bool, es: seq<Entry>, n: nat)
    requires PathsDistinct(es0, venv) && AllReady(base, remote.files, es0) && !remote.torn
    modifies remote
    ensures InstallEnd(base, old(remote.files), remote.files, es0, es, venv, n, remote.posixRename,
                       old(remote.faults), remote.faults, ok, remote.torn)
  {
    hide Turn, Installed, InstallEnd, Leaves, AllReplaceable, InstallCalls;
    es, ok, n := es0, true, 0;
    InstallStarts(base, remote.files, es0, venv, remote.posixRename, remote.faults);
    while n < |es|
      invariant n <= |es| && !remote.torn
      invariant Installing(base, old(remote.files), remote.files, es0, es, venv, n, remote.posixRename,
                           old(remote.faults), remote.faults)
    {
      ghost var before, now := remote.files, remote.faults;
      assert EntryDistinct(es[n], venv);
      var activated, e';
      ok, activated, e' := InstallEntry(remote, es[n], base);
      InstallGoesOn(base, old(remote.files), before, remote.files, es0, es, e', venv, n, remote.posixRename,
                    old(remote.faults), now, remote.faults, ok, activated, remote.torn);
      es := es[n := e'];
      if activated { n := n + 1; }
      if !ok { return; }
    }
    InstallEnds(base, old(remote.files), remote.files, es0, es, venv, remote.posixRename, old(remote.faults),
      remote.faults);
  }

  lemma FailureIsLast(base: Files, fs: Files, es: seq<Entry>, n: nat, activated: bool, torn: bool)
    requires n <= |es| && (activated ==> n > 0)
    requires forall k :: 0 <= k < (if activated then n - 1 else n) ==> AsFlagged(base, fs, es[k])
    requires activated ==> if torn then BehindFiles(base, fs, es[n - 1]) else AsFlagged(base, fs, es[n - 1])
    requires !activated ==> !torn
    ensures torn <==> AnyBehind(base, fs, es[..n])
  {
    if torn { assert es[..n][n - 1] == es[n - 1]; }
    forall k | 0 <= k < n && AsFlagged(base, fs, es[k]) ensures !BehindFiles(base, fs, es[..n][k]) {
      BothCannotHold(base, fs, es[k]);
    }
  }

  /** Look, move an existing virtualenv aside, move the new one in. */
  function VenvCalls(base: Files, v: Venv): seq<bool> {
    if v.target in base then [false, true, true] else [false, true]
  }

  method SwapVenv(remote: Remote, v: Venv, ghost base: Files) returns (ok: bool, v': Venv)
    requires VenvOriginal(base, remote.files, v) && v.backup !in base && v.stage in remote.files && !remote.torn
    requires !v.backupCreated && !v.installed
    requires v.target != v.backup && v.target != v.stage && v.backup != v.stage
    modifies remote
    ensures Ran(old(remote.faults), VenvCalls(base, v), remote.faults, ok, remote.torn)
    ensures SameOutside(old(remote.files), remote.files, v.Paths())
    ensures v'.(backupCreated := false, installed := false) == v
    ensures ok ==> v'.installed && VenvAsFlagged(base, remote.files, v') && !remote.torn
    ensures ok ==> v.stage !in remote.files && remote.files[v.target] == old(remote.files)[v.stage]
    ensures !ok ==> if remote.torn then VenvBehind(base, remote.files, v') else VenvAsFlagged(base, remote.files, v')
  {
    ok, v' := false, v;
    ThreeCalls(remote.faults, false, true, true);
    TwoCalls(remote.faults, false, true);
    var present, reply := remote.Exists(v.target);
    if reply != Ok { return; }
    if present {
      reply := remote.Rename(v.target, v.backup);
      if reply != Ok { return; }
      v' := v'.(backupCreated := true);
    }
    reply := remote.Rename(v.stage, v.target);
    if reply != Ok { return; }
    v' := v'.(installed := true);
    ok := true;
  }

  method UndoVenv(remote: Remote, v: Venv)
    requires remote.faults == []
    modifies remote
    ensures remote.files == VenvUndone(old(remote.files), v) && remote.faults == []
    ensures remote.torn == old(remote.torn)
  {
    var present, reply;
    if v.installed {
      present, reply := remote.Exists(v.target);
      if present { reply := remote.Remove(v.target); }
    }
    if v.backupCreated {
      present, reply := remote.Exists(v.backup);
      if present { reply := remote.Rename(v.backup, v.target); }
    }
  }

  method UndoEntry(remote: Remote, e: Entry)
    requires remote.faults == [] && (e.installed && e.backupCreated ==> remote.posixRename)
    modifies remote
    ensures remote.files == Undone(old(remote.files), e) && remote.faults == []
    ensures remote.torn == old(remote.torn)
  {
    var present, reply := remote.Exists(e.backup);
    if e.backupCreated && present {
      if e.installed {
        reply := remote.PosixRename(e.backup, e.target);
      } else {
        reply := remote.Remove(e.backup);
      }
    } else if e.installed {
      present, reply := remote.Exists(e.target);
      if present { reply := remote.Remove(e.target); }
    }
  }

  /** The file part of rollback_activation: the virtualenv, then the files newest first. */
  method RollbackFiles(remote: Remote, activated: seq<Entry>, v: Venv)
    requires remote.faults == []
    requires forall k :: 0 <= k < |activated| ==> activated[k].installed && activated[k].backupCreated ==>
      remote.posixRename
    modifies remote
    ensures remote.files == UndoAll(VenvUndone(old(remote.files), v), activated) && remote.faults == []
    ensures remote.torn == old(remote.torn)
  {
    hide VenvUndone, Undone;
    ghost var start := remote.files;
    UndoVenv(remote, v);
    var i := |activated|;
    assert activated[..i] == activated;
    while i > 0
      invariant 0 <= i <= |activated| && remote.faults == [] && remote.torn == old(remote.torn)
      invariant UndoAll(remote.files, activated[..i]) == UndoAll(VenvUndone(start, v), activated)
    {
      i := i - 1;
      UndoEntry(remote, activated[i]);
      assert activated[..i + 1][..i] == activated[..i] && activated[..i + 1][i] == activated[i];
    }
    assert activated[..0] == [];
  }

  // ---- the whole transaction -----------------------------------------------------------

  ghost predicate SameForeign(a: Files, b: Files, es: seq<Entry>, v: Venv) {
    forall p :: Elsewhere(es, p) && OutsideVenv(p, v) ==> SameAt(a, b, p)
  }

  /** The files at the moment activation fails, with `n` entries activated. */
  ghost predicate FailedAt(base: Files, fs: Files, es: seq<Entry>, n: nat, v: Venv, torn: bool)
    requires n <= |es|
  {
    && (forall k :: 0 <= k < n ==> Known(base, fs, es[k]) && es[k].backup !in base)
    && (forall k :: n <= k < |es| ==> Original(base, fs, es[k]))
    && (VenvAsFlagged(base, fs, v) || VenvBehind(base, fs, v)) && v.backup !in base
    && (torn <==> AnyBehind(base, fs, es[..n]) || VenvBehind(base, fs, v))
    && SameForeign(base, fs, es, v)
  }

  lemma VenvRollbackElsewhere(base: Files, fs: Files, es: seq<Entry>, v: Venv)
    requires PathsDistinct(es, v) && v.backup !in base
    ensures forall k :: 0 <= k < |es| ==>
      && (Known(base, VenvUndone(fs, v), es[k]) <==> Known(base, fs, es[k]))
      && (AsFlagged(base, VenvUndone(fs, v), es[k]) <==> AsFlagged(base, fs, es[k]))
      && (Original(base, VenvUndone(fs, v), es[k]) <==> Original(base, fs, es[k]))
  {
    VenvUndoneRestores(base, fs, v);
    var fs1 := VenvUndone(fs, v);
    forall k | 0 <= k < |es|
      ensures Known(base, fs1, es[k]) <==> Known(base, fs, es[k])
      ensures AsFlagged(base, fs1, es[k]) <==> AsFlagged(base, fs, es[k])
      ensures Original(base, fs1, es[k]) <==> Original(base, fs, es[k])
    {
      assert EntryDistinct(es[k], v);
      assert SameAt(fs, fs1, es[k].target) && SameAt(fs, fs1, es[k].backup);
    }
  }

  predicate EntriesOriginal(base: Files, fs: Files, es: seq<Entry>) {
    forall k :: 0 <= k < |es| ==> Original(base, fs, es[k])
  }

  lemma UndoneElsewhere(es: seq<Entry>, n: nat, v: Venv)
    requires PathsDistinct(es, v) && n <= |es|
    ensures Untouched(es[..n], v.target) && Untouched(es[..n], v.backup)
    ensures forall k :: n <= k < |es| ==> Untouched(es[..n], es[k].target) && Untouched(es[..n], es[k].backup)
    ensures forall p :: Elsewhere(es, p) ==> Untouched(es[..n], p)
    ensures forall k :: 0 <= k < |es| ==> Untouched(es[..n], es[k].temporary)
  {
    forall j | 0 <= j < n ensures OutsideVenv(es[..n][j].target, v) && OutsideVenv(es[..n][j].backup, v) {
      assert EntryDistinct(es[j], v);
    }
    forall k, j | 0 <= k < |es| && 0 <= j < n
      ensures es[..n][j].target != es[k].temporary && es[..n][j].backup != es[k].temporary
      ensures n <= k ==> es[..n][j].target != es[k].target && es[..n][j].backup != es[k].backup
      ensures n <= k ==> es[..n][j].target != es[k].backup && es[..n][j].backup != es[k].target
    {
      assert EntryDistinct(es[j], v);
      if j != k { assert Apart(es[j], es[k]); }
    }
  }

  lemma EntriesRolledBack(base: Files, fs: Files, es: seq<Entry>, n: nat, v: Venv)
    requires PathsDistinct(es, v) && n <= |es|
    requires forall k :: 0 <= k < n ==> Known(base, fs, es[k]) && es[k].backup !in base
    requires forall k :: n <= k < |es| ==> Original(base, fs, es[k])
    ensures EntriesOriginal(base, UndoAll(fs, es[..n]), es) <==> !AnyBehind(base, fs, es[..n])
    ensures forall p :: Untouched(es[..n], p) ==> SameAt(fs, UndoAll(fs, es[..n]), p)
  {
    var done := es[..n];
    UndoAllRestores(base, fs, done, v);
    UndoneElsewhere(es, n, v);
    var end := UndoAll(fs, done);
    forall k | n <= k < |es| ensures Original(base, end, es[k]) {
      assert SameAt(fs, end, es[k].target) && SameAt(fs, end, es[k].backup);
    }
    forall k | 0 <= k < n ensures Original(base, end, es[k]) <==> !BehindFiles(base, fs, done[k]) {
      assert done[k] == es[k] && Known(base, fs, es[k]);
      BothCannotHold(base, fs, es[k]);
    }
  }

  /** The rollback restores every target and the virtualenv exactly when nothing was torn. */
  lemma RollbackRestores(base: Files, fs: Files, es: seq<Entry>, n: nat, v: Venv, torn: bool)
    requires PathsDistinct(es, v) && n <= |es| && FailedAt(base, fs, es, n, v, torn)
    ensures var rolled := UndoAll(VenvUndone(fs, v), es[..n]);
      && (EntriesOriginal(base, rolled, es) && VenvOriginal(base, rolled, v) <==> !torn)
      && SameForeign(base, rolled, es, v)
  {
    var fs1 := VenvUndone(fs, v);
    VenvUndoneRestores(base, fs, v);
    VenvRollbackElsewhere(base, fs, es, v);
    EntriesRolledBack(base, fs1, es, n, v);
    UndoneElsewhere(es, n, v);
    var rolled := UndoAll(fs1, es[..n]);
    assert SameAt(fs1, rolled, v.target) && SameAt(fs1, rolled, v.backup);
    assert AnyBehind(base, fs, es[..n]) <==> AnyBehind(base, fs1, es[..n]) by { BehindAgrees(base, fs, fs1, es, n); }
    forall p | Elsewhere(es, p) && OutsideVenv(p, v) ensures SameAt(base, rolled, p) {
      assert SameAt(base, fs, p) && SameAt(fs, fs1, p) && SameAt(fs1, rolled, p);
    }
  }

  lemma BehindAgrees(base: Files, fs: Files, fs1: Files, es: seq<Entry>, n: nat)
    requires n <= |es|
    requires forall k :: 0 <= k < n ==> Known(base, fs, es[k]) && Known(base, fs1, es[k])
    requires forall k :: 0 <= k < n ==> (AsFlagged(base, fs, es[k]) <==> AsFlagged(base, fs1, es[k]))
    ensures AnyBehind(base, fs, es[..n]) <==> AnyBehind(base, fs1, es[..n])
  {
    forall k | 0 <= k < n ensures BehindFiles(base, fs, es[..n][k]) <==> BehindFiles(base, fs1, es[..n][k]) {
      assert Known(base, fs, es[k]) && Known(base, fs1, es[k]);
      BothCannotHold(base, fs, es[k]);
      BothCannotHold(base, fs1, es[k]);
    }
  }

  lemma StagedPathsAreSeparate(es: seq<Entry>, v: Venv)
    requires PathsDistinct(es, v)
    ensures Kept(es, v.target) && Kept(es, v.backup)
    ensures forall k :: 0 <= k < |es| ==>
      Kept(es, es[k].target) && Kept(es, es[k].backup) && OutsideVenv(es[k].target, v) && OutsideVenv(es[k].backup, v)
  {
    forall j | 0 <= j < |es| ensures EntryDistinct(es[j], v) {}
    forall k, j | 0 <= k < |es| && 0 <= j < |es|
      ensures es[j].temporary != es[k].target && es[j].temporary != es[k].backup
    {
      if j != k { assert Apart(es[j], es[k]); } else { assert EntryDistinct(es[k], v); }
    }
  }

  /** After the staged files are gone too, the files are the same as before, or something of the installation is
      left. */
  lemma CleanupRestores(base: Files, rolled: Files, end: Files, es: seq<Entry>, v: Venv)
    requires PathsDistinct(es, v) && NoLeftovers(base, es, v) && SameForeign(base, rolled, es, v)
    requires forall p :: p != v.stage && Kept(es, p) ==> SameAt(rolled, end, p)
    requires forall k :: 0 <= k < |es| ==> es[k].temporary !in end
    requires v.stage !in end
    ensures end == base <==> EntriesOriginal(base, rolled, es) && VenvOriginal(base, rolled, v)
    ensures SameForeign(base, end, es, v)
  {
    forall p | Elsewhere(es, p) && OutsideVenv(p, v) ensures SameAt(base, end, p) {
      assert Kept(es, p) && SameAt(base, rolled, p) && SameAt(rolled, end, p);
    }
    StagedPathsAreSeparate(es, v);
    assert SameAt(rolled, end, v.target) && SameAt(rolled, end, v.backup);
    forall k | 0 <= k < |es| ensures SameAt(rolled, end, es[k].target) && SameAt(rolled, end, es[k].backup) {}
    if EntriesOriginal(base, rolled, es) && VenvOriginal(base, rolled, v) {
      forall p ensures SameAt(base, end, p) {
        if OutsideVenv(p, v) && Elsewhere(es, p) {
          assert Kept(es, p) && SameAt(base, rolled, p) && SameAt(rolled, end, p);
        } else if OutsideVenv(p, v) {
          var k :| 0 <= k < |es| && (p == es[k].target || p == es[k].temporary || p == es[k].backup);
          assert Original(base, rolled, es[k]);
        }
      }
      SameEverywhere(base, end);
    } else if end == base {
      forall k | 0 <= k < |es| ensures Original(base, rolled, es[k]) {
        assert SameAt(rolled, end, es[k].target) && SameAt(rolled, end, es[k].backup);
      }
    }
  }

  lemma StagedIsReady(base: Files, fs: Files, es0: seq<Entry>, es: seq<Entry>, v: Venv)
    requires FreshStart(base, es0, v) && SamePaths(es0, es) && PathsDistinct(es, v)
    requires forall k :: 0 <= k < |es| ==> es[k].Pristine()
    requires OnlyStage(base, fs, es0, v) && StagedUpTo(fs, es, |es|)
    requires v.stage in fs
    ensures ReadyToPlace(base, fs, es, v)
  {
    StageOnly(base, fs, es0, es, v);
    StagedPathsAreSeparate(es, v);
    forall k | 0 <= k < |es| ensures Ready(base, fs, es[k]) && es[k].backup !in base && es[k].temporary !in base {
      assert es0[k].backup !in base && es0[k].temporary !in base;
      forall p | p == es[k].target || p == es[k].backup ensures SameAt(base, fs, p) {
        assert Kept(es, p);
        assert NotStage(es, v, p) by {
          forall j | 0 <= j < |es| ensures p != es[j].temporary { assert es[j].stageCreated; }
        }
      }
      assert SameAt(base, fs, es[k].target) && SameAt(base, fs, es[k].backup);
    }
    forall p | p == v.target || p == v.backup ensures SameAt(base, fs, p) {
      forall j | 0 <= j < |es| ensures p != es[j].temporary { assert EntryDistinct(es[j], v); }
      assert NotStage(es, v, p);
    }
    assert SameAt(base, fs, v.target) && SameAt(base, fs, v.backup);
    forall p | Elsewhere(es, p) && OutsideVenv(p, v) ensures SameAt(base, fs, p) { assert NotStage(es, v, p); }
  }

  lemma VenvUntouchedByInstall(first: Files, after: Files, es0: seq<Entry>, v: Venv)
    requires PathsDistinct(es0, v) && SameElsewhere(first, after, es0)
    ensures SameAt(first, after, v.target) && SameAt(first, after, v.backup) && SameAt(first, after, v.stage)
  {
    forall k | 0 <= k < |es0| ensures EntryDistinct(es0[k], v) {}
    assert Elsewhere(es0, v.target) && Elsewhere(es0, v.backup) && Elsewhere(es0, v.stage);
  }

  lemma ForeignAfterInstall(base: Files, first: Files, after: Files, es0: seq<Entry>, es: seq<Entry>, v: Venv)
    requires SamePaths(es0, es) && SameForeign(base, first, es0, v) && SameElsewhere(first, after, es0)
    ensures SameForeign(base, after, es, v)
  {
    forall p | Elsewhere(es, p) && OutsideVenv(p, v) ensures SameAt(base, after, p) {
      forall k | 0 <= k < |es0| ensures p != es0[k].target && p != es0[k].temporary && p != es0[k].backup {
        assert p != es[k].target;
      }
      assert Elsewhere(es0, p);
      assert SameAt(base, first, p) && SameAt(first, after, p);
    }
  }

  /** Swapping the virtualenv leaves the entries alone. */
  lemma EntriesAfterSwap(base: Files, before: Files, after: Files, es: seq<Entry>, v: Venv)
    requires PathsDistinct(es, v) && SameOutside(before, after, v.Paths())
    ensures forall k :: 0 <= k < |es| ==>
      && (AsFlagged(base, before, es[k]) ==> AsFlagged(base, after, es[k]))
      && (es[k].temporary in after <==> es[k].temporary in before)
      && (es[k].target in before ==> es[k].target in after && after[es[k].target] == before[es[k].target])
    ensures SameForeign(base, before, es, v) ==> SameForeign(base, after, es, v)
  {
    forall k | 0 <= k < |es|
      ensures SameAt(before, after, es[k].target) && SameAt(before, after, es[k].backup) &&
        SameAt(before, after, es[k].temporary)
    {
      assert EntryDistinct(es[k], v);
    }
    forall p | SameForeign(base, before, es, v) && Elsewhere(es, p) && OutsideVenv(p, v)
      ensures SameAt(base, after, p) {
      assert SameAt(base, before, p) && SameAt(before, after, p);
    }
  }

  /** Every payload is at its target. */
  predicate InPlace(es: seq<Entry>, fs: Files) {
    forall k :: 0 <= k < |es| ==> es[k].target in fs && fs[es[k].target] == es[k].New()
  }

  lemma PayloadsThere(es: seq<Entry>, fs: Files)
    requires InPlace(es, fs)
    ensures forall k :: 0 <= k < |es| ==>
      es[k].target in fs && fs[es[k].target] == File(es[k].payload, es[k].mode, false)
  {
  }

  function PlaceCalls(base: Files, es: seq<Entry>, v: Venv, posix: bool): seq<bool> {
    InstallCalls(base, es, posix) + (if AllReplaceable(base, es, posix) then VenvCalls(base, v) else [])
  }

  /** The entries, and if they are all in place the virtualenv. */
  lemma PlaceCallsRun(base: Files, es: seq<Entry>, v: Venv, posix: bool, before: seq<Fault>, now: seq<Fault>,
                      after: seq<Fault>, ok: bool, torn: bool)
    requires var calls, all := InstallCalls(base, es, posix), AllReplaceable(base, es, posix);
      || (Installed(before, calls, all, now, true, false) && Ran(now, VenvCalls(base, v), after, ok, torn))
      || (Installed(before, calls, all, now, false, torn) && !ok)
    ensures Installed(before, PlaceCalls(base, es, v, posix), AllReplaceable(base, es, posix), after, ok, torn)
  {
    hide Hit, Passes, After;
    var calls := InstallCalls(base, es, posix);
    var rest := if AllReplaceable(base, es, posix) then VenvCalls(base, v) else [];
    if !AllReplaceable(base, es, posix) {
      assert calls + rest == calls;
      return;
    }
    HitAppend(before, calls, rest);
    PassesInTwo(before, |calls|, |rest|);
  }

  /** Put the files and the virtualenv in place; on failure say how far that went. */
  method PutInPlace(remote: Remote, es0: seq<Entry>, venv: Venv, ghost base: Files)
      returns (ok: bool, es: seq<Entry>, n: nat, v: Venv)
    requires ReadyToPlace(base, remote.files, es0, venv) && !remote.torn
    modifies remote
    ensures Installed(old(remote.faults), PlaceCalls(base, es0, venv, remote.posixRename),
                      AllReplaceable(base, es0, remote.posixRename), remote.faults, ok, remote.torn)
    ensures SamePaths(es0, es) && PathsDistinct(es, v) && n <= |es|
    ensures v.(backupCreated := false, installed := false) == venv
    ensures forall k :: 0 <= k < |es| ==> es[k].stageCreated == es0[k].stageCreated
    ensures forall k :: 0 <= k < n ==> es[k].installed && es[k].backupCreated ==> remote.posixRename
    ensures FailedAt(base, remote.files, es, n, v, remote.torn)
    ensures ok ==> n == |es| && !remote.torn && v.installed
    ensures ok ==> InPlace(es, remote.files)
    ensures ok ==> v.target in remote.files && remote.files[v.target] == old(remote.files)[venv.stage]
  {
    hide InstallCalls, VenvCalls, PlaceCalls, Installed, Ran, AllReplaceable, Passes, After, Hit;
    ghost var first := remote.files;
    v := venv;
    ok, es, n := InstallAll(remote, es0, venv, base);
    VenvUntouchedByInstall(first, remote.files, es0, venv);
    ForeignAfterInstall(base, first, remote.files, es0, es, venv);
    assert venv.backup !in base;
    if !ok {
      PlaceCallsRun(base, es0, venv, remote.posixRename, old(remote.faults), remote.faults, remote.faults, false,
        remote.torn);
      return;
    }
    ghost var before, now := remote.files, remote.faults;
    ok, v := SwapVenv(remote, venv, base);
    PlaceCallsRun(base, es0, venv, remote.posixRename, old(remote.faults), now, remote.faults, ok, remote.torn);
    EntriesAfterSwap(base, before, remote.files, es, venv);
    assert forall k :: 0 <= k < |es| ==> EntryDistinct(es[k], venv) ==> EntryDistinct(es[k], v);
    forall k | 0 <= k < |es| ensures es[..n][k] == es[k] && !BehindFiles(base, remote.files, es[..n][k]) {
      BothCannotHold(base, remote.files, es[k]);
    }
    if !remote.torn { VenvNotBoth(base, remote.files, v); }
    SameForeignVenv(base, remote.files, es, venv, v);
  }

  lemma SameForeignVenv(base: Files, fs: Files, es: seq<Entry>, venv: Venv, v: Venv)
    requires v.(backupCreated := false, installed := false) == venv && SameForeign(base, fs, es, venv)
    ensures SameForeign(base, fs, es, v)
  {
    forall p | Elsewhere(es, p) && OutsideVenv(p, v) ensures SameAt(base, fs, p) { assert OutsideVenv(p, venv); }
  }

  lemma VenvNotBoth(base: Files, fs: Files, v: Venv)
    ensures !(VenvAsFlagged(base, fs, v) && VenvBehind(base, fs, v))
  {
  }

  /** Best-effort removal of the backups after a completed activation. */
  method DropBackups(remote: Remote, es: seq<Entry>, v: Venv)
    modifies remote`files, remote`faults, remote`history
    ensures forall p :: NoBackup(es, v, p) || p !in old(remote.files) ==> SameAt(old(remote.files), remote.files, p)
    ensures Faultless(old(remote.faults)) ==>
      && (forall k :: 0 <= k < |es| && es[k].backupCreated ==> es[k].backup !in remote.files)
      && (v.backupCreated ==> v.backup !in remote.files)
  {
    var i := 0;
    while i < |es|
      invariant i <= |es| && (Faultless(old(remote.faults)) ==> Faultless(remote.faults))
      invariant forall p :: NoBackup(es, v, p) || p !in old(remote.files) ==> SameAt(old(remote.files), remote.files, p)
      invariant Faultless(old(remote.faults)) ==>
        forall k :: 0 <= k < i && es[k].backupCreated ==> es[k].backup !in remote.files
    {
      if es[i].backupCreated { var _ := remote.Remove(es[i].backup); }
      i := i + 1;
    }
    if v.backupCreated { var _ := remote.Remove(v.backup); }
  }

  predicate NoBackup(es: seq<Entry>, v: Venv, p: Path) {
    p != v.backup && forall k :: 0 <= k < |es| ==> p != es[k].backup
  }

  /** The file part of a failed activation: rollback, then the clean-up of `finally`. */
  method Abandon(remote: Remote, es: seq<Entry>, n: nat, v: Venv, ghost base: Files)
    requires PathsDistinct(es, v) && NoLeftovers(base, es, v) && n <= |es|
    requires FailedAt(base, remote.files, es, n, v, remote.torn)
    requires forall k :: 0 <= k < |es| ==> es[k].stageCreated
    requires forall k :: 0 <= k < n ==> es[k].installed && es[k].backupCreated ==> remote.posixRename
    modifies remote
    ensures remote.files == base <==> !old(remote.torn)
    ensures remote.torn == old(remote.torn)
    ensures SameForeign(base, remote.files, es, v)
  {
    ghost var failedAt, torn := remote.files, remote.torn;
    remote.faults := [];
    assert forall k :: 0 <= k < n ==> es[..n][k] == es[k];
    RollbackFiles(remote, es[..n], v);
    RollbackRestores(base, failedAt, es, n, v, torn);
    ghost var rolled := remote.files;
    RemoveStaged(remote, es, v);
    remote.Cleanup(v.stage);
    CleanupRestores(base, rolled, remote.files, es, v);
  }

  lemma PayloadsOf(a: seq<Entry>, b: seq<Entry>, fs: Files)
    requires SamePaths(a, b) && InPlace(b, fs)
    ensures InPlace(a, fs)
  {
    forall k | 0 <= k < |a| ensures a[k].target == b[k].target && a[k].New() == b[k].New() {}
  }

  /** Only what the flags name is there of the installation. */
  predicate BackupsKnown(fs: Files, es: seq<Entry>, v: Venv) {
    && (forall k :: 0 <= k < |es| ==> es[k].stageCreated && (es[k].backup in fs ==> es[k].backupCreated))
    && (v.backup in fs ==> v.backupCreated)
  }

  /** The end of a completed activation: best-effort clean-up that leaves what was installed alone. */
  method Complete(remote: Remote, es: seq<Entry>, v: Venv)
    requires PathsDistinct(es, v)
    modifies remote`files, remote`faults, remote`history
    ensures InPlace(es, old(remote.files)) ==> InPlace(es, remote.files)
    ensures SameAt(old(remote.files), remote.files, v.target)
    ensures SameForeign(old(remote.files), remote.files, es, v)
    ensures Faultless(old(remote.faults)) && BackupsKnown(old(remote.files), es, v) ==> NoLeftovers(remote.files, es, v)
  {
    ghost var first, clean := remote.files, Faultless(remote.faults);
    RemoveStaged(remote, es, v);
    remote.Cleanup(v.stage);
    ghost var second := remote.files;
    assert clean ==> StagedGone(second, es, v);
    DropBackups(remote, es, v);
    CompletedFiles(first, second, remote.files, es, v);
    if clean && BackupsKnown(first, es, v) { NothingLeft(first, second, remote.files, es, v); }
    hide PathsDistinct, NoLeftovers, BackupsKnown, InPlace, SameForeign;
  }

  predicate StagedGone(fs: Files, es: seq<Entry>, v: Venv) {
    v.stage !in fs && forall k :: 0 <= k < |es| && es[k].stageCreated ==> es[k].temporary !in fs
  }

  lemma CompletedFiles(first: Files, second: Files, end: Files, es: seq<Entry>, v: Venv)
    requires PathsDistinct(es, v)
    requires forall p :: p != v.stage && Kept(es, p) ==> SameAt(first, second, p)
    requires forall p :: NoBackup(es, v, p) ==> SameAt(second, end, p)
    ensures InPlace(es, first) ==> InPlace(es, end)
    ensures SameAt(first, end, v.target) && SameForeign(first, end, es, v)
  {
    StagedPathsAreSeparate(es, v);
    BackupsAreSeparate(es, v);
    forall k | 0 <= k < |es| ensures SameAt(first, end, es[k].target) {
      assert SameAt(first, second, es[k].target) && SameAt(second, end, es[k].target);
    }
    forall p | Elsewhere(es, p) && OutsideVenv(p, v) ensures SameAt(first, end, p) {
      assert Kept(es, p) && NoBackup(es, v, p);
      assert SameAt(first, second, p) && SameAt(second, end, p);
    }
  }

  lemma NothingLeft(first: Files, second: Files, end: Files, es: seq<Entry>, v: Venv)
    requires PathsDistinct(es, v) && BackupsKnown(first, es, v) && StagedGone(second, es, v)
    requires forall p :: p != v.stage && Kept(es, p) ==> SameAt(first, second, p)
    requires forall p :: p !in second ==> p !in end
    requires forall k :: 0 <= k < |es| && es[k].backupCreated ==> es[k].backup !in end
    requires v.backupCreated ==> v.backup !in end
    ensures NoLeftovers(end, es, v)
  {
    StagedPathsAreSeparate(es, v);
    forall k | 0 <= k < |es| ensures es[k].temporary !in end && es[k].backup !in end {
      assert SameAt(first, second, es[k].backup);
    }
    assert SameAt(first, second, v.backup);
  }

  lemma BackupsAreSeparate(es: seq<Entry>, v: Venv)
    requires PathsDistinct(es, v)
    ensures NoBackup(es, v, v.target) && forall k :: 0 <= k < |es| ==> NoBackup(es, v, es[k].target)
  {
    forall j | 0 <= j < |es| ensures EntryDistinct(es[j], v) {}
    forall k, j | 0 <= k < |es| && 0 <= j < |es| ensures es[j].backup != es[k].target {
      if j != k { assert Apart(es[j], es[k]); }
    }
  }

  /** The row after another transaction, if there is one. */
  function Seen(row: Row, change: Option<Row>): Row { if change.Some? then change.value else row }

  /** Health check, activation in the database, restart, first heartbeat, completion in the database.

      `late`: what another transaction leaves in the row between the two updates. */
  method Enroll(remote: Remote, node: NodeRow, oldToken: Option<int>, newToken: Option<int>, late: Option<Row>)
      returns (ok: bool, entered: bool)
    modifies remote`faults, node`row
    ensures entered <==> Passes(old(remote.faults), 1) && old(node.row) == Row(oldToken, Provisioning)
    ensures ok <==>
      Passes(old(remote.faults), 3) && old(node.row) == Row(oldToken, Provisioning) &&
      Seen(Row(newToken, Provisioning), late) == Row(newToken, Provisioning)
    ensures ok ==> entered
    ensures node.row ==
      if ok then Row(newToken, Completed)
      else if entered then Seen(Row(newToken, Provisioning), late) else old(node.row)
    ensures Faultless(old(remote.faults)) ==> Faultless(remote.faults)
  {
    hide Hit, Passes, After;
    OneCall(remote.faults, false);
    ThreeCalls(remote.faults, false, false, false);
    entered := false;
    var reply := remote.Ask();
    if reply != Ok { return false, entered; }
    entered := node.Enter(oldToken, newToken);
    if !entered { return false, entered; }
    if late.Some? { node.row := late.value; }
    reply := remote.Ask();
    if reply == Ok { reply := remote.Ask(); }
    if reply != Ok { return false, entered; }
    ok := node.Finish(newToken);
  }

  lemma {:induction false} SameInstallCalls(base: Files, es0: seq<Entry>, es: seq<Entry>, posix: bool)
    requires SamePaths(es0, es)
    ensures InstallCalls(base, es, posix) == InstallCalls(base, es0, posix)
    decreases |es|
  {
    if es != [] {
      assert es[0].target == es0[0].target && es[0].New() == es0[0].New();
      SameInstallCalls(base, es0[1..], es[1..], posix);
    }
  }

  lemma SameCalls(base: Files, es0: seq<Entry>, es: seq<Entry>, v: Venv, posix: bool)
    requires SamePaths(es0, es)
    ensures AllReplaceable(base, es, posix) == AllReplaceable(base, es0, posix)
    ensures PlaceCalls(base, es, v, posix) == PlaceCalls(base, es0, v, posix)
  {
    SameInstallCalls(base, es0, es, posix);
    assert forall k :: 0 <= k < |es| ==> es[k].target == es0[k].target;
  }

  lemma SameLeftovers(base: Files, a: seq<Entry>, b: seq<Entry>, venv: Venv, v: Venv)
    requires SamePaths(a, b) && v.(backupCreated := false, installed := false) == venv
    ensures NoLeftovers(base, a, venv) <==> NoLeftovers(base, b, v)
  {
    forall k | 0 <= k < |a| ensures a[k].temporary == b[k].temporary && a[k].backup == b[k].backup {}
  }

  /** Every call up to the swap of the virtualenv. */
  function ActivationCalls(base: Files, es: seq<Entry>, v: Venv, posix: bool): seq<bool> {
    StageCalls(es) + PlaceCalls(base, es, v, posix)
  }

  /** Nothing before the activation in the database goes wrong. */
  predicate ReachesRow(faults: seq<Fault>, base: Files, es: seq<Entry>, v: Venv, posix: bool) {
    Passes(faults, |ActivationCalls(base, es, v, posix)| + 1) && AllReplaceable(base, es, posix)
  }

  /** What a failure leaves in the row; `reached`: the activation in the database was tried. */
  function RowLeft(reached: bool, row: Row, late: Option<Row>, oldToken: Option<int>, newToken: Option<int>): Row {
    if !reached || row != Row(oldToken, Provisioning) then row
    else var seen := Seen(Row(newToken, Provisioning), late);
      if seen.token == newToken then seen.(token := oldToken) else seen
  }

  /** An installation with these calls succeeds if it meets no fault up to the first heartbeat and both updates
      find the row as it was left. */
  predicate Succeeds(faults: seq<Fault>, calls: seq<bool>, possible: bool, row: Row, late: Option<Row>,
                     oldToken: Option<int>, newToken: Option<int>)
  {
    && Passes(faults, |calls| + 3) && possible && row == Row(oldToken, Provisioning)
    && Seen(Row(newToken, Provisioning), late) == Row(newToken, Provisioning)
  }

  /** How it ends before the outermost handler; `same`: the files are as they were. */
  predicate Outcome(faults: seq<Fault>, calls: seq<bool>, possible: bool, row: Row, late: Option<Row>,
                    oldToken: Option<int>, newToken: Option<int>, ok: bool, left: Row, same: bool)
  {
    && (ok <==> Succeeds(faults, calls, possible, row, late, oldToken, newToken))
    && (!ok ==> (same <==> !Hit(faults, calls)))
    && left == if ok then Row(newToken, Completed)
               else RowLeft(Passes(faults, |calls| + 1) && possible, row, late, oldToken, newToken)
  }

  lemma OutcomeAfterStaging(faults: seq<Fault>, staging: seq<bool>, placing: seq<bool>, possible: bool, row: Row,
                            late: Option<Row>, oldToken: Option<int>, newToken: Option<int>,
                            ok: bool, left: Row, same: bool)
    requires if Passes(faults, |staging|)
             then Outcome(After(faults, |staging|), placing, possible, row, late, oldToken, newToken, ok, left, same)
             else !ok && left == row && (same <==> !Hit(faults, staging))
    ensures Outcome(faults, staging + placing, possible, row, late, oldToken, newToken, ok, left, same)
  {
    hide Hit, Passes, After;
    HitAppend(faults, staging, placing);
    PassesInTwo(faults, |staging|, |placing| + 1);
    PassesInTwo(faults, |staging|, |placing| + 3);
  }

  /** The database part: an enrolment that fails gives the old token back. */
  method EnrollOrWithdraw(remote: Remote, node: NodeRow, oldToken: Option<int>, newToken: Option<int>,
                          late: Option<Row>)
      returns (ok: bool)
    modifies remote`faults, node`row
    ensures ok <==>
      Passes(old(remote.faults), 3) && old(node.row) == Row(oldToken, Provisioning) &&
      Seen(Row(newToken, Provisioning), late) == Row(newToken, Provisioning)
    ensures node.row ==
      if ok then Row(newToken, Completed)
      else RowLeft(Passes(old(remote.faults), 1), old(node.row), late, oldToken, newToken)
    ensures Faultless(old(remote.faults)) ==> Faultless(remote.faults)
  {
    hide Passes;
    var entered;
    ok, entered := Enroll(remote, node, oldToken, newToken, late);
    if !ok && entered && newToken != oldToken { node.Withdraw(newToken, oldToken); }
  }

  lemma OutcomeOfPlacing(faults: seq<Fault>, calls: seq<bool>, possible: bool, now: seq<Fault>, placed: bool,
                         torn: bool, row: Row, late: Option<Row>, oldToken: Option<int>, newToken: Option<int>,
                         ok: bool, left: Row, same: bool)
    requires Installed(faults, calls, possible, now, placed, torn) && (!ok ==> (same <==> !torn))
    requires if placed then
               && (ok <==>
                     (Passes(now, 3) && row == Row(oldToken, Provisioning) &&
                      Seen(Row(newToken, Provisioning), late) == Row(newToken, Provisioning)))
               && left == (if ok then Row(newToken, Completed)
                           else RowLeft(Passes(now, 1), row, late, oldToken, newToken))
             else !ok && left == row
    ensures Outcome(faults, calls, possible, row, late, oldToken, newToken, ok, left, same)
  {
    hide Hit, Passes, After;
    PassesInTwo(faults, |calls|, 1);
    PassesInTwo(faults, |calls|, 3);
  }

  lemma PlacedWithoutFault(faults: seq<Fault>, calls: seq<bool>, possible: bool, now: seq<Fault>, torn: bool)
    requires Installed(faults, calls, possible, now, true, torn)
    ensures Faultless(faults) ==> Faultless(now)
  {
    if Faultless(faults) { FaultlessPasses(faults, |calls|); }
  }

  lemma PlacedIsKnown(base: Files, fs: Files, es: seq<Entry>, v: Venv)
    requires FailedAt(base, fs, es, |es|, v, false) && forall k :: 0 <= k < |es| ==> es[k].stageCreated
    ensures BackupsKnown(fs, es, v) && SameForeign(base, fs, es, v)
  {
    assert es[..|es|] == es;
    forall k | 0 <= k < |es| ensures AsFlagged(base, fs, es[k]) { assert Known(base, fs, es[k]); }
  }

  lemma ForeignTwice(a: Files, b: Files, c: Files, es: seq<Entry>, v: Venv)
    requires SameForeign(a, b, es, v) && SameForeign(b, c, es, v)
    ensures SameForeign(a, c, es, v)
  {
    forall p | Elsewhere(es, p) && OutsideVenv(p, v) ensures SameAt(a, c, p) {
      assert SameAt(a, b, p) && SameAt(b, c, p);
    }
  }

  lemma ForeignAlike(a: Files, b: Files, es0: seq<Entry>, es: seq<Entry>, v0: Venv, v: Venv)
    requires SamePaths(es0, es) && v.(backupCreated := false, installed := false) == v0
    requires SameForeign(a, b, es, v)
    ensures SameForeign(a, b, es0, v0)
  {
    forall p | Elsewhere(es0, p) && OutsideVenv(p, v0) ensures SameAt(a, b, p) {
      forall k | 0 <= k < |es| ensures p != es[k].target && p != es[k].temporary && p != es[k].backup {
        assert p != es0[k].target;
      }
      assert Elsewhere(es, p);
    }
  }

  /** Activation proper, and rollback_activation with the clean-up of its `finally`. */
  method PlaceAndEnroll(remote: Remote, node: NodeRow, es0: seq<Entry>, venv: Venv, oldToken: Option<int>,
                        newToken: Option<int>, late: Option<Row>, ghost base: Files) returns (ok: bool)
    requires ReadyToPlace(base, remote.files, es0, venv) && !remote.torn
    modifies remote, node`row
    ensures Outcome(old(remote.faults), PlaceCalls(base, es0, venv, remote.posixRename),
                    AllReplaceable(base, es0, remote.posixRename), old(node.row), late, oldToken, newToken,
                    ok, node.row, remote.files == base)
    ensures ok ==> InPlace(es0, remote.files)
    ensures ok ==> venv.target in remote.files && remote.files[venv.target] == old(remote.files)[venv.stage]
    ensures SameForeign(base, remote.files, es0, venv)
    ensures ok && Faultless(old(remote.faults)) ==> NoLeftovers(remote.files, es0, venv)
  {
    hide Hit, Passes, After, FailedAt, NoLeftovers, PathsDistinct, Outcome, Installed, RowLeft, SameForeign,
      BackupsKnown, Faultless;
    ghost var calls, possible := PlaceCalls(base, es0, venv, remote.posixRename),
      AllReplaceable(base, es0, remote.posixRename);
    ghost var faults, row := remote.faults, node.row;
    var es, n, v;
    ok, es, n, v := PutInPlace(remote, es0, venv, base);
    ghost var now, placed, torn := remote.faults, ok, remote.torn;
    ghost var before := remote.files;
    SameLeftovers(base, es0, es, venv, v);
    if ok { ok := EnrollOrWithdraw(remote, node, oldToken, newToken, late); }
    if !ok {
      Abandon(remote, es, n, v, base);
    } else {
      assert Faultless(faults) ==> Faultless(now) by { PlacedWithoutFault(faults, calls, possible, now, torn); }
      PlacedIsKnown(base, before, es, v);
      Complete(remote, es, v);
      PayloadsOf(es0, es, remote.files);
      SameLeftovers(remote.files, es0, es, venv, v);
      ForeignTwice(base, before, remote.files, es, v);
    }
    ForeignAlike(base, remote.files, es0, es, venv, v);
    OutcomeOfPlacing(faults, calls, possible, now, placed, torn, row, late, oldToken, newToken,
                     ok, node.row, remote.files == base);
  }

  /** Staging, activation, rollback. */
  method Attempt(remote: Remote, node: NodeRow, es0: seq<Entry>, venv: Venv, tree: File,
                 oldToken: Option<int>, newToken: Option<int>, late: Option<Row>) returns (ok: bool)
    requires FreshStart(remote.files, es0, venv) && !remote.torn
    requires forall k :: 0 <= k < |es0| ==> !es0[k].stageCreated
    modifies remote, node`row
    ensures Outcome(old(remote.faults), ActivationCalls(old(remote.files), es0, venv, remote.posixRename),
                    AllReplaceable(old(remote.files), es0, remote.posixRename), old(node.row), late, oldToken, newToken,
                    ok, node.row, remote.files == old(remote.files))
    ensures ok ==> InPlace(es0, remote.files) && venv.target in remote.files && remote.files[venv.target] == tree
    ensures SameForeign(old(remote.files), remote.files, es0, venv)
    ensures ok && Faultless(old(remote.faults)) ==> NoLeftovers(remote.files, es0, venv)
  {
    hide Hit, Passes, After, Outcome, SameForeign, NoLeftovers, Faultless;
    ghost var base, faults, row := remote.files, remote.faults, node.row;
    ghost var placing, possible := PlaceCalls(base, es0, venv, remote.posixRename),
      AllReplaceable(base, es0, remote.posixRename);
    var staged;
    ok, staged := StageAll(remote, es0, venv, tree);
    if ok {
      SameCalls(base, es0, staged, venv, remote.posixRename);
      if Faultless(faults) { FaultlessPasses(faults, |StageCalls(es0)|); }
      ok := PlaceAndEnroll(remote, node, staged, venv, oldToken, newToken, late, base);
      ForeignAlike(base, remote.files, es0, staged, venv, venv);
      if ok {
        PayloadsOf(es0, staged, remote.files);
        SameLeftovers(remote.files, es0, staged, venv, venv);
      }
    }
    OutcomeAfterStaging(faults, StageCalls(es0), placing, possible, row, late, oldToken, newToken,
                        ok, node.row, remote.files == base);
  }

  /** The whole of an installation, with the outermost handler.

      The row may have changed in any way since `oldToken` was read. `late`: what another transaction leaves
      in it between the activation in the database and the completion. */
  method Activate(remote: Remote, node: NodeRow, es0: seq<Entry>, venv: Venv, tree: File,
                  oldToken: Option<int>, newToken: Option<int>, late: Option<Row>) returns (ok: bool)
    requires FreshStart(remote.files, es0, venv) && !remote.torn
    requires forall k :: 0 <= k < |es0| ==> !es0[k].stageCreated
    modifies remote, node`row
    ensures ok <==> Succeeds(old(remote.faults), ActivationCalls(old(remote.files), es0, venv, remote.posixRename),
                             AllReplaceable(old(remote.files), es0, remote.posixRename),
                             old(node.row), late, oldToken, newToken)
    // All or nothing: after a failure the files are the very same, exactly unless the first fault of the
    // schedule took effect and struck a call that leaves a trace.
    ensures !ok ==> (remote.files == old(remote.files) <==>
                     !Hit(old(remote.faults), ActivationCalls(old(remote.files), es0, venv, remote.posixRename)))
    ensures !ok && Harmless(old(remote.faults)) ==> remote.files == old(remote.files)
    // The row of a failed activation is never left provisioning. It has its old token, unless another transaction came
    // between the two updates: then its own token stays, and only the activated one is taken back.
    ensures !ok ==> !node.row.status.Provisioning?
    ensures !ok ==>
      var entered := old(node.row) == Row(oldToken, Provisioning) &&
        ReachesRow(old(remote.faults), old(remote.files), es0, venv, remote.posixRename);
      if entered && late.Some? then
        && node.row.token == (if late.value.token == newToken then oldToken else late.value.token)
        && node.row.status == (if late.value.status.Provisioning? then ProvisionFailed else late.value.status)
      else
        && node.row.token == old(node.row.token)
        && node.row.status == (if old(node.row).status.Provisioning? then ProvisionFailed else old(node.row).status)
    ensures ok ==> node.row == Row(newToken, Completed)
    ensures ok ==> forall k :: 0 <= k < |es0| ==>
      es0[k].target in remote.files && remote.files[es0[k].target] == File(es0[k].payload, es0[k].mode, false)
    ensures ok ==> venv.target in remote.files && remote.files[venv.target] == tree
    // However it ends, other files are left alone; without a fault a success leaves none of its own beside.
    ensures SameForeign(old(remote.files), remote.files, es0, venv)
    ensures ok && Faultless(old(remote.faults)) ==> NoLeftovers(remote.files, es0, venv)
    // Where nothing fails and nobody interferes it succeeds.
    ensures Faultless(old(remote.faults)) && remote.posixRename && late.None? ==>
      (ok <==> old(node.row) == Row(oldToken, Provisioning))
  {
    ghost var calls, possible := ActivationCalls(remote.files, es0, venv, remote.posixRename),
      AllReplaceable(remote.files, es0, remote.posixRename);
    ghost var base, faults, row := remote.files, remote.faults, node.row;
    assert possible <== remote.posixRename;
    assert ReachesRow(faults, base, es0, venv, remote.posixRename) <==> Passes(faults, |calls| + 1) && possible;
    hide Hit, Passes, After, Succeeds, Harmless, Faultless, Outcome, AllReplaceable, ActivationCalls, ReachesRow,
      InPlace, SameForeign, NoLeftovers;
    ok := Attempt(remote, node, es0, venv, tree, oldToken, newToken, late);
    ghost var left := node.row;
    if ok { PayloadsThere(es0, remote.files); } else { node.Fail(); }
    OutcomeMeans(faults, calls, possible, row, late, oldToken, newToken, ok, left, remote.files == base, node.row);
  }

  lemma OutcomeMeans(faults: seq<Fault>, calls: seq<bool>, possible: bool, row: Row, late: Option<Row>,
                     oldToken: Option<int>, newToken: Option<int>, ok: bool, left: Row, same: bool, end: Row)
    requires Outcome(faults, calls, possible, row, late, oldToken, newToken, ok, left, same)
    requires end == if !ok && left.status.Provisioning? then left.(status := ProvisionFailed) else left
    ensures ok <==> Succeeds(faults, calls, possible, row, late, oldToken, newToken)
    ensures !ok ==> (same <==> !Hit(faults, calls)) && (Harmless(faults) ==> same) && !end.status.Provisioning?
    ensures !ok ==>
      if Passes(faults, |calls| + 1) && possible && row == Row(oldToken, Provisioning) && late.Some? then
        && end.token == (if late.value.token == newToken then oldToken else late.value.token)
        && end.status == (if late.value.status.Provisioning? then ProvisionFailed else late.value.status)
      else
        && end.token == row.token
        && end.status == (if row.status.Provisioning? then ProvisionFailed else row.status)
    ensures ok ==> end == Row(newToken, Completed)
    ensures Faultless(faults) && possible && late.None? ==> (ok <==> row == Row(oldToken, Provisioning))
  {
    if Harmless(faults) { HarmlessNeverHits(faults, calls); }
    if Faultless(faults) { FaultlessPasses(faults, |calls| + 3); }
    hide Hit, Passes, Harmless, Faultless;
  }

  lemma HitMeansStopped(faults: seq<Fault>, calls: seq<bool>)
    requires Hit(faults, calls)
    ensures !Passes(faults, |calls|) && !Passes(faults, |calls| + 3)
  {
    HitAppend(faults, calls, []);
    PassesInTwo(faults, |calls|, 3);
  }

  /** Whatever there is to install, the very last call can tear the files. */
  lemma LastCallCanTear(base: Files, es: seq<Entry>, v: Venv, posix: bool)
    requires AllReplaceable(base, es, posix)
    ensures var calls := ActivationCalls(base, es, v, posix);
      calls != [] && Hit(LateFailure(|calls| - 1), calls)
  {
    var calls := ActivationCalls(base, es, v, posix);
    var last := VenvCalls(base, v);
    assert calls == StageCalls(es) + InstallCalls(base, es, posix) + last;
    assert calls[|calls| - 1] == last[|last| - 1];
    LateFailureHits(|calls| - 1, calls);
  }

  /** An installation that is not undone: moving the old virtualenv aside takes effect and reports failure. */
  method RenameReportsFailure(files: Files, venv: Venv, tree: File, row: Row, token: Option<int>)
      returns (ok: bool, after: Files)
    requires FreshStart(files, [], venv) && venv.target in files
    ensures !ok && after != files
  {
    var remote := new Remote(files, LateFailure(4), true, true);
    var node := new NodeRow(row);
    assert ActivationCalls(files, [], venv, true) == [false, false, false, false, true, true];
    LateFailureHits(4, [false, false, false, false, true, true]);
    ok := Activate(remote, node, [], venv, tree, row.token, token, None);
    after := remote.files;
    if ok { HitMeansStopped(LateFailure(4), ActivationCalls(files, [], venv, true)); }
  }
}
