/** The snapshot file that carries the previous CPU sample from one run to
    the next (main.go:26-73), as an abstract store from file paths to
    entries. The JSON encoding is not modelled: an entry either decodes to
    a time and a sample, or it cannot be read at all. */
module SnapshotStore {
  import opened Common
  import opened Cpu

  datatype Entry =
    | Saved(time: Int64, cpu: CpuTimes)   // a file that decodes
    | Corrupt                             // a file that exists but cannot be read or decoded

  type Store = map<string, Entry>

  /** How the attempt to write the snapshot goes: os.Create may fail, which
      leaves any old file alone, or the file may be created (truncating it)
      and the write itself fail, which leaves an undecodable file. */
  datatype WriteEffect = Written | CreateFails | WriteFails

  const FilePrefix: string := "mackerel-plugin-linux-usage-"
  const DefaultUid: string := "0"

  /** filepath.Join of a directory and a single file name: the directory,
      then a single '/' unless the directory already ends with one, then the
      name. An empty directory contributes nothing. */
  function Join(dir: string, name: string): (p: string)
    ensures |name| <= |p| && p[|p| - |name|..] == name
    ensures dir == [] ==> p == name
    ensures dir != [] ==> |dir| + |name| <= |p| <= |dir| + 1 + |name| && p[..|dir|] == dir
    ensures dir != [] ==> (|p| == |dir| + |name| <==> dir[|dir| - 1] == '/')
    ensures dir != [] && dir[|dir| - 1] != '/' ==> p[|dir|] == '/'
  {
    if dir == [] then name
    else if dir[|dir| - 1] == '/' then dir + name
    else dir + "/" + name
  }

  /** Joining onto the same directory never maps two names to one path. */
  lemma JoinInjective(dir: string, a: string, b: string)
    requires Join(dir, a) == Join(dir, b)
    ensures a == b
  {
    var pa := Join(dir, a);
    var lead := |pa| - |a|;
    assert lead == |Join(dir, b)| - |b|;
    assert a == pa[lead..];
    assert b == Join(dir, b)[lead..];
  }

  /** The user part of the file name: the uid of the current user, or "0"
      when the user lookup gives no user. */
  function UidOf(user: Option<string>): (uid: string)
    ensures user.Some? ==> uid == user.value
    ensures user.None? ==> uid == DefaultUid
  {
    match user
    case Some(u) => u
    case None => DefaultUid
  }

  /** The snapshot path: the plugin work directory joined with the file
      name prefix followed by the uid. */
  function TempfilePath(workDir: string, user: Option<string>): (p: string)
    ensures var name := FilePrefix + UidOf(user);
            |name| <= |p| && p[|p| - |name|..] == name
    ensures workDir == [] ==> p == FilePrefix + UidOf(user)
    ensures var name := FilePrefix + UidOf(user);
            workDir != [] ==> |workDir| + |name| <= |p| <= |workDir| + 1 + |name| && p[..|workDir|] == workDir
    ensures workDir != [] ==> (|p| == |workDir| + |FilePrefix + UidOf(user)| <==> workDir[|workDir| - 1] == '/')
    ensures workDir != [] && workDir[|workDir| - 1] != '/' ==>
            |p| == |workDir| + 1 + |FilePrefix + UidOf(user)| && p[|workDir|] == '/'
  {
    Join(workDir, FilePrefix + UidOf(user))
  }

  /** Distinct uids in the same work directory get distinct snapshot files,
      and a user whose lookup fails shares the file of uid "0". */
  lemma TempfilePathPerUser(workDir: string, u1: Option<string>, u2: Option<string>)
    ensures TempfilePath(workDir, u1) == TempfilePath(workDir, u2) <==> UidOf(u1) == UidOf(u2)
  {
    if TempfilePath(workDir, u1) == TempfilePath(workDir, u2) {
      JoinInjective(workDir, FilePrefix + UidOf(u1), FilePrefix + UidOf(u2));
      assert UidOf(u1) == (FilePrefix + UidOf(u1))[|FilePrefix|..];
      assert UidOf(u2) == (FilePrefix + UidOf(u2))[|FilePrefix|..];
    }
  }

  /** readStats: the stored time and sample, or a read failure when the file
      is missing or does not decode. */
  function ReadStats(store: Store, path: string): (r: Result<(Int64, CpuTimes)>)
    ensures r.Success? <==> path in store && store[path].Saved?
    ensures r.Failure? ==> r.error == ReadFailed
    ensures r.Success? ==> r.value.0 == store[path].time && r.value.1 == store[path].cpu
  {
    if path in store then
      match store[path]
      case Saved(t, c) => Success((t, c))
      case Corrupt => Failure(ReadFailed)
    else Failure(ReadFailed)
  }

  datatype WriteOutcome = WriteResult(store: Store, err: Option<Error>)

  /** writeStats: stores the sample with the current time under the path.
      Only that path can change. On success the same time and sample read
      back; on failure the error names the failing step. */
  function WriteStats(store: Store, path: string, now: Int64, cpu: CpuTimes, effect: WriteEffect): (w: WriteOutcome)
    ensures forall p :: p != path ==> (p in w.store <==> p in store)
    ensures forall p :: p != path && p in store ==> w.store[p] == store[p]
    ensures w.err.None? <==> effect == Written
    ensures effect == Written ==> ReadStats(w.store, path) == Success((now, cpu))
    ensures effect == CreateFails ==> w.store == store && w.err == Some(CreateFailed)
    ensures effect == WriteFails ==> path in w.store && ReadStats(w.store, path) == Failure(ReadFailed) && w.err == Some(WriteFailed)
  {
    match effect
    case Written => WriteResult(store[path := Saved(now, cpu)], None)
    case CreateFails => WriteResult(store, Some(CreateFailed))
    case WriteFails => WriteResult(store[path := Corrupt], Some(WriteFailed))
  }
}
