/** A remote host's files behind SFTP and SSH, with an arbitrary schedule of faults.

    Plain rename refuses an existing destination and POSIX rename replaces it, as in
    section 6.5 of draft-ietf-secsh-filexfer-02 and in the fake of tests/file_ops.py.
    A call that fails may or may not have taken effect before it failed. */
module RemoteFiles {
  type Path = string

  /** A directory tree moves as a whole, so it is one value too. */
  datatype File = File(data: seq<int>, mode: int, isDir: bool)

  type Files = map<Path, File>

  datatype Fault = Fine | Fails(effect: bool) | Cancelled(effect: bool) {
    predicate TakesEffect() { Fine? || effect }
  }

  datatype Reply = Ok | Failed | Aborted | Unsupported

  function ReplyTo(fault: Fault, possible: bool): Reply {
    match fault
    case Fine => if possible then Ok else Failed
    case Fails(_) => Failed
    case Cancelled(_) => Aborted
  }

  function Renamed(files: Files, source: Path, destination: Path): Files
    requires source in files
  {
    (files - {source})[destination := files[source]]
  }

  function NextFault(faults: seq<Fault>): Fault { if faults == [] then Fine else faults[0] }

  function Later(faults: seq<Fault>): seq<Fault> { if faults == [] then [] else faults[1..] }

  /** No call fails. */
  ghost predicate Faultless(faults: seq<Fault>) { forall k :: 0 <= k < |faults| ==> faults[k].Fine? }

  /** No scheduled failure takes effect. */
  ghost predicate Harmless(faults: seq<Fault>) {
    forall k :: 0 <= k < |faults| ==> faults[k].Fine? || !faults[k].effect
  }

  /** The next `n` calls meet no fault. */
  predicate Passes(faults: seq<Fault>, n: nat) {
    n == 0 || (NextFault(faults).Fine? && Passes(Later(faults), n - 1))
  }

  /** The schedule after `n` calls. */
  function After(faults: seq<Fault>, n: nat): seq<Fault> {
    if n == 0 then faults else After(Later(faults), n - 1)
  }

  /** The first fault takes effect and strikes a marked call. `calls` are the calls to come. */
  predicate Hit(faults: seq<Fault>, calls: seq<bool>) {
    calls != [] &&
    if NextFault(faults).Fine? then Hit(Later(faults), calls[1..]) else NextFault(faults).effect && calls[0]
  }

  lemma {:induction false} HitAppend(faults: seq<Fault>, first: seq<bool>, second: seq<bool>)
    ensures Hit(faults, first + second) <==>
      if Passes(faults, |first|) then Hit(After(faults, |first|), second) else Hit(faults, first)
    ensures Passes(faults, |first|) ==> !Hit(faults, first)
    decreases |first|
  {
    if first == [] {
      assert first + second == second;
    } else {
      assert (first + second)[1..] == first[1..] + second;
      HitAppend(Later(faults), first[1..], second);
    }
  }

  lemma {:induction false} PassesInTwo(faults: seq<Fault>, m: nat, n: nat)
    ensures Passes(faults, m + n) <==> Passes(faults, m) && Passes(After(faults, m), n)
    ensures After(faults, m + n) == After(After(faults, m), n)
    decreases m
  {
    if m > 0 { PassesInTwo(Later(faults), m - 1, n); }
  }

  lemma {:induction false} FaultlessPasses(faults: seq<Fault>, n: nat)
    requires Faultless(faults)
    ensures Passes(faults, n) && Faultless(After(faults, n))
  {
    if n > 0 { FaultlessPasses(Later(faults), n - 1); }
  }

  lemma {:induction false} HarmlessNeverHits(faults: seq<Fault>, calls: seq<bool>)
    requires Harmless(faults)
    ensures !Hit(faults, calls)
    decreases |calls|
  {
    if calls != [] { HarmlessNeverHits(Later(faults), calls[1..]); }
  }

  /** One failure, at call `k`, that takes effect. */
  function LateFailure(k: nat): (faults: seq<Fault>)
    ensures faults != []
  {
    if k == 0 then [Fails(true)] else [Fine] + LateFailure(k - 1)
  }

  lemma {:induction false} LateFailureHits(k: nat, calls: seq<bool>)
    ensures Hit(LateFailure(k), calls) <==> k < |calls| && calls[k]
    decreases k
  {
    if k > 0 && calls != [] {
      assert Later(LateFailure(k)) == LateFailure(k - 1);
      LateFailureHits(k - 1, calls[1..]);
    }
  }

  /** How a list of calls ended: it stops at the first fault, and `torn` says whether that fault was a hit. */
  predicate Ran(before: seq<Fault>, calls: seq<bool>, after: seq<Fault>, ok: bool, torn: bool) {
    (ok <==> Passes(before, |calls|)) && (ok ==> after == After(before, |calls|)) && (torn <==> Hit(before, calls))
  }

  lemma OneCall(faults: seq<Fault>, a: bool)
    ensures Hit(faults, [a]) <==> !NextFault(faults).Fine? && NextFault(faults).effect && a
    ensures Passes(faults, 1) <==> NextFault(faults).Fine?
    ensures After(faults, 1) == Later(faults)
  {
    assert After(faults, 1) == After(Later(faults), 0);
    assert Passes(faults, 1) <==> NextFault(faults).Fine? && Passes(Later(faults), 0);
  }

  lemma TwoCalls(faults: seq<Fault>, a: bool, b: bool)
    ensures Hit(faults, [a, b]) <==>
      var f0, f1 := NextFault(faults), NextFault(Later(faults));
      if f0.Fine? then !f1.Fine? && f1.effect && b else f0.effect && a
    ensures Passes(faults, 2) <==> NextFault(faults).Fine? && NextFault(Later(faults)).Fine?
    ensures After(faults, 2) == Later(Later(faults))
  {
    assert [a, b] == [a] + [b];
    HitAppend(faults, [a], [b]);
    PassesInTwo(faults, 1, 1);
    OneCall(faults, a);
    OneCall(Later(faults), b);
  }

  lemma ThreeCalls(faults: seq<Fault>, a: bool, b: bool, c: bool)
    ensures Hit(faults, [a, b, c]) <==>
      var f0, f1, f2 := NextFault(faults), NextFault(Later(faults)), NextFault(Later(Later(faults)));
      if !f0.Fine? then f0.effect && a else if f1.Fine? then !f2.Fine? && f2.effect && c else f1.effect && b
    ensures Passes(faults, 3) <==>
      NextFault(faults).Fine? && NextFault(Later(faults)).Fine? && NextFault(Later(Later(faults))).Fine?
    ensures After(faults, 3) == Later(Later(Later(faults)))
  {
    assert [a, b, c] == [a] + [b, c];
    HitAppend(faults, [a], [b, c]);
    PassesInTwo(faults, 1, 2);
    OneCall(faults, a);
    TwoCalls(Later(faults), b, c);
  }

  /** Without a fault so far, `rest` is what is left of `calls`. */
  predicate Leaves(before: seq<Fault>, calls: seq<bool>, now: seq<Fault>, rest: seq<bool>) {
    && (Hit(before, calls) <==> Hit(now, rest))
    && (Passes(before, |calls|) <==> Passes(now, |rest|))
    && After(before, |calls|) == After(now, |rest|)
  }

  lemma LeavesNext(before: seq<Fault>, calls: seq<bool>, now: seq<Fault>, first: seq<bool>, rest: seq<bool>,
                   after: seq<Fault>, ok: bool, torn: bool)
    requires Leaves(before, calls, now, first + rest) && Ran(now, first, after, ok, torn)
    ensures if ok then !torn && Leaves(before, calls, after, rest) else Ran(before, calls, after, ok, torn)
  {
    hide Hit, Passes, After;
    HitAppend(now, first, rest);
    PassesInTwo(now, |first|, |rest|);
  }

  /** Calls that run one list after another. */
  lemma RanOn(before: seq<Fault>, first: seq<bool>, second: seq<bool>, after: seq<Fault>, ok: bool, torn: bool)
    requires if Passes(before, |first|) then Ran(After(before, |first|), second, after, ok, torn)
             else !ok && (torn <==> Hit(before, first))
    ensures Ran(before, first + second, after, ok, torn)
  {
    hide Hit, Passes, After;
    HitAppend(before, first, second);
    PassesInTwo(before, |first|, |second|);
  }

  class Remote {
    var files: Files
    var faults: seq<Fault>
    const posixRename: bool
    const reportsModes: bool
    /** Every state the files have been in. */
    ghost var history: seq<Files>
    /** A call that reported failure had changed what its destination holds. */
    ghost var torn: bool

    constructor (files: Files, faults: seq<Fault>, posixRename: bool, reportsModes: bool)
      ensures this.files == files && this.faults == faults && history == [files] && !torn
      ensures this.posixRename == posixRename && this.reportsModes == reportsModes
    {
      this.files, this.faults := files, faults;
      this.posixRename, this.reportsModes := posixRename, reportsModes;
      history, torn := [files], false;
    }

    method Draw() returns (fault: Fault)
      modifies this`faults
      ensures fault == NextFault(old(faults)) && faults == Later(old(faults))
    {
      fault := Fine;
      if |faults| > 0 {
        fault := faults[0];
        faults := faults[1..];
      }
    }

    /** sftp.stat, or any command that changes no file. */
    method Ask() returns (reply: Reply)
      modifies this`faults
      ensures reply == ReplyTo(NextFault(old(faults)), true) && faults == Later(old(faults))
    {
      var fault := Draw();
      reply := ReplyTo(fault, true);
    }

    /** sftp_path_exists: only "no such file" is an answer, any other failure propagates. */
    method Exists(path: Path) returns (present: bool, reply: Reply)
      modifies this`faults
      ensures reply == ReplyTo(NextFault(old(faults)), true) && faults == Later(old(faults))
      ensures present == (path in files)
    {
      reply := Ask();
      present := path in files;
    }

    method Chmod(path: Path, mode: int) returns (reply: Reply)
      modifies this`files, this`faults, this`history
      ensures var fault, possible := NextFault(old(faults)), path in old(files);
        && reply == ReplyTo(fault, possible) && faults == Later(old(faults))
        && files == (if possible && fault.TakesEffect() then old(files)[path := old(files)[path].(mode := mode)]
                     else old(files))
      ensures history == old(history) + [files]
    {
      var fault := Draw();
      var possible := path in files;
      if possible && fault.TakesEffect() { files := files[path := files[path].(mode := mode)]; }
      history := history + [files];
      reply := ReplyTo(fault, possible);
    }

    method Rename(source: Path, destination: Path) returns (reply: Reply)
      modifies this`files, this`faults, this`history, this`torn
      ensures var fault, possible := NextFault(old(faults)), source in old(files) && destination !in old(files);
        && reply == ReplyTo(fault, possible) && faults == Later(old(faults))
        && files == (if possible && fault.TakesEffect() then Renamed(old(files), source, destination) else old(files))
        && torn == (old(torn) || (possible && fault.TakesEffect() && reply != Ok))
      ensures history == old(history) + [files]
    {
      var fault := Draw();
      var possible := source in files && destination !in files;
      reply := ReplyTo(fault, possible);
      if possible && fault.TakesEffect() {
        files := Renamed(files, source, destination);
        torn := torn || reply != Ok;
      }
      history := history + [files];
    }

    /** posix-rename@openssh.com: replaces the destination in one step, where the server has it. */
    method PosixRename(source: Path, destination: Path) returns (reply: Reply)
      modifies this`files, this`faults, this`history, this`torn
      ensures var fault, possible := NextFault(old(faults)), posixRename && source in old(files);
        && reply == (if fault.Fine? && !posixRename then Unsupported else ReplyTo(fault, possible))
        && faults == Later(old(faults))
        && files == (if possible && fault.TakesEffect() then Renamed(old(files), source, destination) else old(files))
        && torn == (old(torn) || (possible && fault.TakesEffect() && reply != Ok &&
                                  (destination !in old(files) || old(files)[destination] != old(files)[source])))
      ensures history == old(history) + [files]
    {
      var fault := Draw();
      var possible := posixRename && source in files;
      reply := if fault.Fine? && !posixRename then Unsupported else ReplyTo(fault, possible);
      if possible && fault.TakesEffect() {
        torn := torn || (reply != Ok && (destination !in files || files[destination] != files[source]));
        files := Renamed(files, source, destination);
      }
      history := history + [files];
    }

    method Remove(path: Path) returns (reply: Reply)
      modifies this`files, this`faults, this`history
      ensures var fault, possible := NextFault(old(faults)), path in old(files);
        && reply == ReplyTo(fault, possible) && faults == Later(old(faults))
        && files == (if possible && fault.TakesEffect() then old(files) - {path} else old(files))
      ensures history == old(history) + [files]
    {
      var fault := Draw();
      var possible := path in files;
      if possible && fault.TakesEffect() { files := files - {path}; }
      history := history + [files];
      reply := ReplyTo(fault, possible);
    }

    /** cp of one file next to another, or creation of a new file or tree: the destination must not exist. */
    method Write(destination: Path, file: File) returns (reply: Reply)
      modifies this`files, this`faults, this`history, this`torn
      ensures var fault, possible := NextFault(old(faults)), destination !in old(files);
        && reply == ReplyTo(fault, possible) && faults == Later(old(faults))
        && files == (if possible && fault.TakesEffect() then old(files)[destination := file] else old(files))
        && torn == (old(torn) || (possible && fault.TakesEffect() && reply != Ok))
      ensures history == old(history) + [files]
    {
      var fault := Draw();
      var possible := destination !in files;
      reply := ReplyTo(fault, possible);
      if possible && fault.TakesEffect() {
        files := files[destination := file];
        torn := torn || reply != Ok;
      }
      history := history + [files];
    }

    /** Fill an open file, or build a tree that its caller removes again whatever happened. */
    method Put(path: Path, file: File) returns (reply: Reply)
      modifies this`files, this`faults, this`history
      ensures var fault := NextFault(old(faults));
        && reply == ReplyTo(fault, true) && faults == Later(old(faults))
        && files == (if fault.TakesEffect() then old(files)[path := file] else old(files))
      ensures history == old(history) + [files]
    {
      var fault := Draw();
      if fault.TakesEffect() { files := files[path := file]; }
      history := history + [files];
      reply := ReplyTo(fault, true);
    }

    /** cleanup_sftp_path: best effort, never raises. */
    method Cleanup(path: Path)
      modifies this`files, this`faults, this`history
      ensures files == old(files) || files == old(files) - {path}
      ensures Faultless(old(faults)) ==> files == old(files) - {path} && Faultless(faults)
      ensures old(faults) == [] ==> faults == []
      ensures old(history) <= history
      ensures forall k :: |old(history)| <= k < |history| ==>
        history[k] == old(files) || history[k] == old(files) - {path}
    {
      var present, reply := Exists(path);
      if reply == Ok && present {
        var _ := Remove(path);
      }
      assert path !in old(files) ==> old(files) - {path} == old(files);
    }
  }
}
