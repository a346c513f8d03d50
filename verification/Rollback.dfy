/** What undoing an Agent activation does to the files: the rollback as a function.

    `base` are the files before activation. Each entry carries the flags that the
    installer has set by the time something fails. */
module Rollback {
  import opened RemoteFiles

  datatype Entry = Entry(
    target: Path, temporary: Path, backup: Path, payload: seq<int>, mode: int,
    stageCreated: bool, backupCreated: bool, installed: bool)
  {
    function Paths(): set<Path> { {target, temporary, backup} }
    function New(): File { File(payload, mode, false) }
    function Staged(): File { File(payload, 0x180, false) }   // 0o600
    predicate Pristine() { !backupCreated && !installed }
  }

  datatype Venv = Venv(target: Path, backup: Path, stage: Path, backupCreated: bool, installed: bool) {
    function Paths(): set<Path> { {target, backup, stage} }
  }

  predicate SameAt(a: Files, b: Files, p: Path) {
    (p in a <==> p in b) && (p in a && p in b ==> a[p] == b[p])
  }

  ghost predicate SameOutside(a: Files, b: Files, paths: set<Path>) {
    forall p :: p !in paths ==> SameAt(a, b, p)
  }

  lemma SameEverywhere(a: Files, b: Files)
    requires forall p :: SameAt(a, b, p)
    ensures a == b
  {
    assert forall p :: p in a ==> SameAt(a, b, p);
    assert forall p :: p in b ==> SameAt(a, b, p);
  }

  // ---- one file ------------------------------------------------------------------

  predicate Original(base: Files, fs: Files, e: Entry) {
    SameAt(base, fs, e.target) && e.backup !in fs
  }

  /** The files are as the entry's flags say. */
  predicate AsFlagged(base: Files, fs: Files, e: Entry) {
    && (e.backupCreated ==> e.target in base && e.backup in fs && fs[e.backup] == base[e.target])
    && (!e.backupCreated ==> e.backup !in fs && (e.installed ==> e.target !in base))
    && (if e.installed then e.target in fs && fs[e.target] == e.New() else SameAt(base, fs, e.target))
  }

  /** A call reported failure after it had changed something, so the flags are behind the files. */
  predicate BehindFiles(base: Files, fs: Files, e: Entry) {
    && !e.installed
    && if e.backupCreated then   // the replacement happened
         e.target in base && e.target in fs && fs[e.target] == e.New() && base[e.target] != e.New()
       else                      // the backup was copied, or a new file was put in place
         (e.backup in fs && SameAt(base, fs, e.target)) || (e.target in fs && e.target !in base)
  }

  /** One turn of the loop of rollback_activation. */
  function Undone(fs: Files, e: Entry): Files {
    if e.backupCreated && e.backup in fs then
      if e.installed then Renamed(fs, e.backup, e.target) else fs - {e.backup}
    else if e.installed && e.target in fs then fs - {e.target}
    else fs
  }

  lemma UndoneRestores(base: Files, fs: Files, e: Entry)
    requires e.target != e.backup && e.backup !in base
    ensures SameOutside(fs, Undone(fs, e), {e.target, e.backup})
    ensures AsFlagged(base, fs, e) ==> Original(base, Undone(fs, e), e)
    ensures BehindFiles(base, fs, e) ==> !Original(base, Undone(fs, e), e)
  {
  }

  // ---- all files, newest first -----------------------------------------------------

  /** The random operation id makes all these paths different. */
  predicate Apart(a: Entry, b: Entry) {
    && a.target != b.target && a.target != b.temporary && a.target != b.backup
    && a.temporary != b.target && a.temporary != b.temporary && a.temporary != b.backup
    && a.backup != b.target && a.backup != b.temporary && a.backup != b.backup
  }

  predicate EntryDistinct(e: Entry, venv: Venv) {
    && e.target != e.temporary && e.target != e.backup && e.temporary != e.backup
    && OutsideVenv(e.target, venv) && OutsideVenv(e.temporary, venv) && OutsideVenv(e.backup, venv)
  }

  predicate OutsideVenv(p: Path, venv: Venv) { p != venv.target && p != venv.backup && p != venv.stage }

  predicate PathsDistinct(es: seq<Entry>, venv: Venv) {
    && (forall k :: 0 <= k < |es| ==> EntryDistinct(es[k], venv))
    && (forall j, k :: 0 <= j < |es| && 0 <= k < |es| && j != k ==> Apart(es[j], es[k]))
    && venv.target != venv.backup && venv.target != venv.stage && venv.backup != venv.stage
  }

  function UndoAll(fs: Files, es: seq<Entry>): Files
    decreases |es|
  {
    if es == [] then fs else UndoAll(Undone(fs, es[|es| - 1]), es[..|es| - 1])
  }

  predicate Known(base: Files, fs: Files, e: Entry) {
    AsFlagged(base, fs, e) || BehindFiles(base, fs, e)
  }

  predicate Untouched(es: seq<Entry>, p: Path) {
    forall k :: 0 <= k < |es| ==> p != es[k].target && p != es[k].backup
  }

  /** Undoing the newest entry leaves what is known of the others. */
  lemma OthersStayKnown(base: Files, fs: Files, es: seq<Entry>, venv: Venv, k: nat)
    requires PathsDistinct(es, venv) && k < |es| - 1 && Known(base, fs, es[k])
    requires es[|es| - 1].backup !in base
    ensures var fs1 := Undone(fs, es[|es| - 1]);
      Known(base, fs1, es[k]) && (AsFlagged(base, fs1, es[k]) <==> AsFlagged(base, fs, es[k]))
  {
    var last := es[|es| - 1];
    UndoneRestores(base, fs, last);
    assert Apart(es[k], last);
    hide Undone, AsFlagged, BehindFiles, Known;
    ElsewhereKnown(base, fs, Undone(fs, last), es[k]);
  }

  /** What is undone later does not touch the entry any more. */
  lemma LastIsRestored(base: Files, fs: Files, end: Files, e: Entry)
    requires e.target != e.backup && e.backup !in base && Known(base, fs, e)
    requires SameAt(Undone(fs, e), end, e.target) && SameAt(Undone(fs, e), end, e.backup)
    ensures Original(base, end, e) <==> AsFlagged(base, fs, e)
  {
    UndoneRestores(base, fs, e);
    BothCannotHold(base, fs, e);
    hide Undone, AsFlagged, BehindFiles;
  }

  lemma UntouchedByAll(es: seq<Entry>, venv: Venv, p: Path)
    requires PathsDistinct(es, venv) && es != []
    requires Untouched(es, p) || p == es[|es| - 1].target || p == es[|es| - 1].backup
    ensures Untouched(es[..|es| - 1], p)
  {
    var n := |es| - 1;
    forall k | 0 <= k < n ensures p != es[k].target && p != es[k].backup { assert Apart(es[k], es[n]); }
  }

  /** After the rollback an entry is as it was before exactly when its flags had kept up with the files. */
  lemma {:induction false} UndoAllRestores(base: Files, fs: Files, es: seq<Entry>, venv: Venv)
    requires PathsDistinct(es, venv)
    requires forall k :: 0 <= k < |es| ==> es[k].backup !in base && Known(base, fs, es[k])
    ensures forall p :: Untouched(es, p) ==> SameAt(fs, UndoAll(fs, es), p)
    ensures forall k :: 0 <= k < |es| ==> (Original(base, UndoAll(fs, es), es[k]) <==> AsFlagged(base, fs, es[k]))
    decreases |es|
  {
    hide Undone, AsFlagged, BehindFiles, Known, Original;
    if es != [] {
      var n := |es| - 1;
      var last, rest := es[n], es[..n];
      var fs1 := Undone(fs, last);
      forall k | 0 <= k < n
        ensures rest[k].backup !in base && Known(base, fs1, rest[k])
        ensures AsFlagged(base, fs1, rest[k]) <==> AsFlagged(base, fs, rest[k])
      {
        OthersStayKnown(base, fs, es, venv, k);
      }
      UndoAllRestores(base, fs1, rest, venv);
      var end := UndoAll(fs1, rest);
      UntouchedByAll(es, venv, last.target);
      UntouchedByAll(es, venv, last.backup);
      LastIsRestored(base, fs, end, last);
      UndoneRestores(base, fs, last);
      forall p | Untouched(es, p) ensures SameAt(fs, end, p) {
        assert p != es[n].target;
        UntouchedByAll(es, venv, p);
        assert SameAt(fs, fs1, p) && SameAt(fs1, end, p);
      }
    }
  }

  lemma ElsewhereKnown(base: Files, fs: Files, fs1: Files, e: Entry)
    requires Known(base, fs, e) && SameAt(fs, fs1, e.target) && SameAt(fs, fs1, e.backup)
    ensures Known(base, fs1, e) && (AsFlagged(base, fs1, e) <==> AsFlagged(base, fs, e))
  {
  }

  lemma BothCannotHold(base: Files, fs: Files, e: Entry)
    ensures !(AsFlagged(base, fs, e) && BehindFiles(base, fs, e))
  {
  }

  // ---- the virtualenv ----------------------------------------------------------------

  predicate VenvOriginal(base: Files, fs: Files, v: Venv) {
    SameAt(base, fs, v.target) && v.backup !in fs
  }

  predicate VenvAsFlagged(base: Files, fs: Files, v: Venv) {
    && (v.backupCreated ==> v.target in base && v.backup in fs && fs[v.backup] == base[v.target])
    && (!v.backupCreated ==> v.backup !in fs && (v.installed ==> v.target !in base))
    && (if v.installed then v.target in fs
        else if v.backupCreated then v.target !in fs else SameAt(base, fs, v.target))
  }

  predicate VenvBehind(base: Files, fs: Files, v: Venv) {
    && !v.installed
    && if v.backupCreated then v.target in base && v.target in fs && v.backup in fs
       else (v.target in base && v.target !in fs) || (v.target !in base && v.target in fs)
  }

  function VenvUndone(fs: Files, v: Venv): Files {
    var fs1 := if v.installed && v.target in fs then fs - {v.target} else fs;
    if v.backupCreated && v.backup in fs1 && v.target !in fs1 then Renamed(fs1, v.backup, v.target) else fs1
  }

  lemma VenvUndoneRestores(base: Files, fs: Files, v: Venv)
    requires v.target != v.backup && v.backup !in base
    ensures SameOutside(fs, VenvUndone(fs, v), {v.target, v.backup})
    ensures VenvAsFlagged(base, fs, v) ==> VenvOriginal(base, VenvUndone(fs, v), v)
    ensures VenvBehind(base, fs, v) ==> !VenvOriginal(base, VenvUndone(fs, v), v)
  {
  }

  /** Everything of the installation that is not a target: staged files, backups, the staged tree. */
  ghost predicate NoLeftovers(fs: Files, es: seq<Entry>, v: Venv) {
    && (forall k :: 0 <= k < |es| ==> es[k].temporary !in fs && es[k].backup !in fs)
    && v.stage !in fs && v.backup !in fs
  }
}
