/** finalize_sftp_file: an overwrite never loses the original. */
module SftpFinalize {
  import opened RemoteFiles

  datatype Outcome =
    | Returned
    | Refused              // 409: the destination exists or is a directory
    | Raised               // a failed call before the backup/swap path, or after it was complete
    | SwapUndone           // the swap failed and its rollback finished
    | SwapRollbackFailed   // the swap failed and so did its rollback

  predicate Holds(files: Files, path: Path, data: seq<int>) {
    path in files && files[path].data == data
  }

  /** Old bytes at the destination or the backup, or new bytes at the destination. */
  predicate Safe(files: Files, destination: Path, backup: Path, original: seq<int>, uploaded: seq<int>) {
    Holds(files, destination, original) || Holds(files, backup, original) || Holds(files, destination, uploaded)
  }

  /** Nothing but these paths may change. */
  ghost predicate OnlyChanges(before: Files, after: Files, paths: set<Path>) {
    forall p :: p !in paths ==> (p in after <==> p in before) && (p in before ==> after[p] == before[p])
  }

  predicate KeepsFile(files: Files, destination: Path, backup: Path, original: File) {
    (backup in files && files[backup] == original) || (destination in files && files[destination] == original)
  }

  /** What stands at the destination makes room, under the name kept for a failed upload. */
  method MakeRoom(remote: Remote, destination: Path, failed: Path) returns (ok: bool)
    requires destination != failed && failed !in remote.files
    modifies remote
    ensures remote.files == old(remote.files) || (destination in old(remote.files) &&
      remote.files == Renamed(old(remote.files), destination, failed))
    ensures remote.history == old(remote.history) || remote.history == old(remote.history) + [remote.files]
    ensures ok ==> destination !in remote.files
    ensures Faultless(old(remote.faults)) ==> ok && Faultless(remote.faults)
  {
    var present, reply := remote.Exists(destination);
    if reply != Ok { return false; }
    if present {
      reply := remote.Rename(destination, failed);
      if reply != Ok { return false; }
    }
    ok := true;
  }

  lemma Restores(files: Files, room: Files, destination: Path, backup: Path, failed: Path)
    requires destination != backup && destination != failed && backup != failed && failed !in files && backup in files
    requires room == if destination in files then Renamed(files, destination, failed) else files
    ensures Renamed(room, backup, destination) - {failed} == (files - {backup})[destination := files[backup]]
  {
  }

  lemma SwapUndoes(files: Files, temporary: Path, destination: Path, backup: Path)
    requires temporary in files && destination in files && backup !in files
    requires temporary != destination && temporary != backup && destination != backup
    ensures var moved := Renamed(files, destination, backup);
      && (moved - {backup})[destination := moved[backup]] == files
      && (Renamed(moved, temporary, destination) - {backup})[destination := moved[backup]] == files - {temporary}
  {
  }

  /** The original returns, and the failed upload goes if it can. */
  method PutBack(remote: Remote, destination: Path, backup: Path, failed: Path) returns (done: bool)
    requires destination != backup && destination != failed && backup != failed
    requires backup in remote.files && destination !in remote.files
    modifies remote
    ensures OnlyChanges(old(remote.files), remote.files, {destination, backup, failed})
    ensures old(remote.history) <= remote.history
    ensures KeepsFile(remote.files, destination, backup, old(remote.files)[backup])
    ensures forall k :: |old(remote.history)| <= k < |remote.history| ==>
      KeepsFile(remote.history[k], destination, backup, old(remote.files)[backup])
    ensures done ==>
      destination in remote.files && remote.files[destination] == old(remote.files)[backup] && backup !in remote.files
    ensures Faultless(old(remote.faults)) ==>
      done && remote.files == Renamed(old(remote.files), backup, destination) - {failed}
  {
    var reply := remote.Rename(backup, destination);
    if reply != Ok { return false; }
    remote.Cleanup(failed);
    done := true;
  }

  /** The inner rollback of the swap; `done` unless one of its calls failed. */
  method UndoSwap(remote: Remote, destination: Path, backup: Path, failed: Path) returns (done: bool)
    requires destination != backup && destination != failed && backup != failed && failed !in remote.files
    modifies remote
    ensures OnlyChanges(old(remote.files), remote.files, {destination, backup, failed})
    ensures old(remote.history) <= remote.history
    ensures backup in old(remote.files) ==>
      && KeepsFile(remote.files, destination, backup, old(remote.files)[backup])
      && forall k :: |old(remote.history)| <= k < |remote.history| ==>
           KeepsFile(remote.history[k], destination, backup, old(remote.files)[backup])
    ensures backup in old(remote.files) && done ==>
      destination in remote.files && remote.files[destination] == old(remote.files)[backup]
      && backup !in remote.files
    ensures backup !in old(remote.files) ==> remote.files == old(remote.files) && remote.history == old(remote.history)
    ensures Faultless(old(remote.faults)) ==>
      && done
      && remote.files == if backup in old(remote.files)
                         then (old(remote.files) - {backup})[destination := old(remote.files)[backup]]
                         else old(remote.files)
  {
    var present, reply := remote.Exists(backup);
    if reply != Ok { return false; }
    if !present { return true; }
    var ok := MakeRoom(remote, destination, failed);
    if !ok { return false; }
    ghost var room := remote.files;
    done := PutBack(remote, destination, backup, failed);
    if Faultless(old(remote.faults)) { Restores(old(remote.files), room, destination, backup, failed); }
  }

  /** Every state added to the history since `from` is safe. */
  ghost predicate SafeSince(history: seq<Files>, from: nat, destination: Path, backup: Path, original: seq<int>,
                            uploaded: seq<int>)
  {
    forall k :: from <= k < |history| ==> Safe(history[k], destination, backup, original, uploaded)
  }

  ghost predicate FourPaths(a: Path, b: Path, c: Path, d: Path) {
    a != b && a != c && a != d && b != c && b != d && c != d
  }

  /** Of two calls one fails, and nothing fails after it. */
  ghost predicate OneFails(faults: seq<Fault>) {
    var next := Later(faults);
    if NextFault(faults).Fine? then !NextFault(next).Fine? && Faultless(Later(next)) else Faultless(next)
  }

  /** The two renames of the swap, up to the first that fails. */
  method MoveBoth(remote: Remote, temporary: Path, destination: Path, backup: Path) returns (reply: Reply)
    requires temporary != destination && temporary != backup && destination != backup
    requires temporary in remote.files && destination in remote.files && backup !in remote.files
    modifies remote
    ensures OnlyChanges(old(remote.files), remote.files, {temporary, destination, backup})
    ensures old(remote.history) <= remote.history
    ensures forall k :: |old(remote.history)| <= k < |remote.history| ==>
      KeepsFile(remote.history[k], destination, backup, old(remote.files)[destination])
    ensures if backup in remote.files then remote.files[backup] == old(remote.files)[destination]
            else remote.files == old(remote.files) && reply != Ok
    ensures reply == Ok ==>
      temporary !in remote.files && destination in remote.files &&
        remote.files[destination] == old(remote.files)[temporary]
    ensures Faultless(old(remote.faults)) ==>
      && reply == Ok && Faultless(remote.faults)
      && remote.files == Renamed(Renamed(old(remote.files), destination, backup), temporary, destination)
    ensures OneFails(old(remote.faults)) ==>
      && reply != Ok && Faultless(remote.faults)
      && (remote.files == old(remote.files)
          || remote.files == Renamed(old(remote.files), destination, backup)
          || remote.files == Renamed(Renamed(old(remote.files), destination, backup), temporary, destination))
  {
    reply := remote.Rename(destination, backup);
    if reply == Ok {
      reply := remote.Rename(temporary, destination);
    }
  }

  /** The path for servers without POSIX rename: move the original aside, move the upload in. */
  method SwapWithBackup(remote: Remote, temporary: Path, destination: Path, backup: Path, failed: Path)
      returns (outcome: Outcome)
    requires FourPaths(temporary, destination, backup, failed)
    requires temporary in remote.files && destination in remote.files && backup !in remote.files &&
      failed !in remote.files
    modifies remote
    ensures OnlyChanges(old(remote.files), remote.files, {temporary, destination, backup, failed})
    ensures old(remote.history) <= remote.history
    ensures var original, uploaded := old(remote.files)[destination].data, old(remote.files)[temporary].data;
      && SafeSince(remote.history, |old(remote.history)|, destination, backup, original, uploaded)
      && Safe(remote.files, destination, backup, original, uploaded)
    ensures outcome == Returned ==>
      temporary !in remote.files && destination in remote.files &&
        remote.files[destination] == old(remote.files)[temporary]
    ensures outcome == SwapUndone ==>
      destination in remote.files && remote.files[destination] == old(remote.files)[destination]
    ensures outcome == Raised ==>
      destination in remote.files && remote.files[destination] == old(remote.files)[temporary]
    ensures outcome != Refused
    ensures Faultless(old(remote.faults)) ==>
      outcome == Returned && remote.files == Renamed(old(remote.files), temporary, destination)
    // Where one of the two renames fails and nothing else does, all is as before but for the upload, if that was moved.
    ensures OneFails(old(remote.faults)) ==>
      outcome == SwapUndone && remote.files in {old(remote.files), old(remote.files) - {temporary}}
  {
    hide OneFails, Faultless;
    SwapUndoes(remote.files, temporary, destination, backup);
    var reply := MoveBoth(remote, temporary, destination, backup);
    if reply != Ok {
      var done := UndoSwap(remote, destination, backup, failed);
      return if done then SwapUndone else SwapRollbackFailed;
    }
    reply := remote.Remove(backup);
    outcome := if reply == Aborted then Raised else Returned;
  }

  /** The path is there at every point since `from`. */
  ghost predicate Present(history: seq<Files>, from: nat, path: Path) {
    forall k :: from <= k < |history| ==> path in history[k]
  }

  /** Over an existing file: in one step where the server can, by backup and swap where it cannot. */
  method ReplaceFile(remote: Remote, temporary: Path, destination: Path, backup: Path, failed: Path)
      returns (outcome: Outcome)
    requires FourPaths(temporary, destination, backup, failed)
    requires temporary in remote.files && destination in remote.files && backup !in remote.files &&
      failed !in remote.files
    modifies remote
    ensures OnlyChanges(old(remote.files), remote.files, {temporary, destination, backup, failed})
    ensures old(remote.history) <= remote.history
    ensures var original, uploaded := old(remote.files)[destination].data, old(remote.files)[temporary].data;
      && SafeSince(remote.history, |old(remote.history)|, destination, backup, original, uploaded)
      && Safe(remote.files, destination, backup, original, uploaded)
    ensures outcome == Returned ==>
      temporary !in remote.files && destination in remote.files &&
        remote.files[destination] == old(remote.files)[temporary]
    ensures outcome == SwapUndone ==>
      destination in remote.files && remote.files[destination] == old(remote.files)[destination]
    ensures outcome != Refused
    ensures remote.posixRename ==>
      Present(remote.history, |old(remote.history)|, destination) && destination in remote.files
    ensures Faultless(old(remote.faults)) ==>
      outcome == Returned && remote.files == Renamed(old(remote.files), temporary, destination)
  {
    var reply := remote.PosixRename(temporary, destination);
    if reply == Ok { return Returned; }
    if reply != Unsupported { return Raised; }
    outcome := SwapWithBackup(remote, temporary, destination, backup, failed);
  }

  method FinalizeSftpFile(remote: Remote, temporary: Path, destination: Path, overwrite: bool, backup: Path,
                          failed: Path)
      returns (outcome: Outcome)
    requires FourPaths(temporary, destination, backup, failed)
    requires temporary in remote.files && backup !in remote.files && failed !in remote.files
    modifies remote
    ensures OnlyChanges(old(remote.files), remote.files, {temporary, destination, backup, failed})
    // At every intermediate point, whatever fails and whether or not it took effect.
    ensures old(remote.history) <= remote.history
    ensures destination in old(remote.files) ==>
      SafeSince(remote.history, |old(remote.history)|, destination, backup,
                old(remote.files)[destination].data, old(remote.files)[temporary].data)
    ensures destination in old(remote.files) ==>
      Safe(remote.files, destination, backup, old(remote.files)[destination].data, old(remote.files)[temporary].data)
    // Where the server has POSIX rename no reader ever finds the destination missing.
    ensures remote.posixRename && destination in old(remote.files) ==>
      Present(remote.history, |old(remote.history)|, destination) && destination in remote.files
    // Normal return: the new bytes, with the old mode where the server reports modes.
    ensures outcome == Returned ==>
      && temporary !in remote.files && destination in remote.files
      && remote.files[destination] == old(remote.files)[temporary].(mode :=
           if destination in old(remote.files) && remote.reportsModes
           then old(remote.files)[destination].mode else old(remote.files)[temporary].mode)
    // A rollback that finished has put the very same file back.
    ensures outcome == SwapUndone ==>
      destination in old(remote.files) && destination in remote.files
      && remote.files[destination] == old(remote.files)[destination]
    ensures outcome == Refused ==> remote.files == old(remote.files) && destination in old(remote.files)
    ensures destination !in old(remote.files) ==>
      Holds(remote.files, if temporary in remote.files then temporary else destination,
            old(remote.files)[temporary].data)
    // Whatever fails, nothing is replaced that may not be.
    ensures !overwrite && destination in old(remote.files) ==>
      remote.files == old(remote.files) && outcome in {Refused, Raised}
    ensures outcome == Refused ==> !overwrite || (remote.reportsModes && old(remote.files)[destination].isDir)
    // Without faults it is refused exactly there, and otherwise nothing but the destination is left changed.
    ensures Faultless(old(remote.faults)) ==>
      if destination in old(remote.files) &&
         (!overwrite || (remote.reportsModes && old(remote.files)[destination].isDir))
      then outcome == Refused
      else
        && outcome == Returned
        && remote.files == (old(remote.files) - {temporary})[destination := remote.files[destination]]
  {
    var present, reply := remote.Exists(destination);
    if reply != Ok { return Raised; }
    if !present {
      reply := remote.Rename(temporary, destination);
      return if reply == Ok then Returned else Raised;
    }
    if !overwrite { return Refused; }
    reply := remote.Ask();
    if reply != Ok { return Raised; }
    if remote.reportsModes {
      if remote.files[destination].isDir { return Refused; }
      reply := remote.Chmod(temporary, remote.files[destination].mode);
      if reply != Ok { return Raised; }
    }
    outcome := ReplaceFile(remote, temporary, destination, backup, failed);
  }
}
