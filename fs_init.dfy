/** The error-code flow of the littlefs bring-up done at start-up.

    The littlefs calls themselves (mount, format, stat, mkdir) are outside
    this model: only the integer each returns matters here, and those
    integers are an input, `LfsResults`. A run of the bring-up is described by
    the sequence of calls it makes, each paired with the result it got. */
module FsInit {

  /** LFS_ERR_OK: success. */
  const ErrOk: int := 0

  /** LFS_ERR_NOENT: no such file or directory (littlefs's value). */
  const ErrNoent: int := -2

  /** The two directories the bring-up makes sure exist. */
  const CfgDir: string := "/cfg"
  const OtaDir: string := "/ota"

  /** A littlefs operation. */
  datatype Op = Mount | Format | Stat(path: string) | Mkdir(path: string)

  /** One littlefs call and the result it returned. */
  datatype Call = Call(op: Op, result: int)

  /** The result each call would return if it were made: the first mount, the
      format, the second mount, and stat and mkdir of each directory. */
  datatype LfsResults = LfsResults(mount: int, format: int, remount: int,
                                   statCfg: int, mkdirCfg: int,
                                   statOta: int, mkdirOta: int)

  /** Mount, format and mkdir store their result in the bring-up's error
      code; stat results are only compared and never stored. */
  predicate SetsErr(c: Call) {
    !c.op.Stat?
  }

  /** `err` is the result of the last call of `t` that stores its result. */
  predicate IsLastStatus(t: seq<Call>, err: int) {
    exists i :: 0 <= i < |t| && SetsErr(t[i]) && t[i].result == err &&
                forall j :: i < j < |t| ==> !SetsErr(t[j])
  }

  /** Operation `op` is among the calls of `t`. */
  predicate Attempted(t: seq<Call>, op: Op) {
    exists i :: 0 <= i < |t| && t[i].op == op
  }

  /** A mount is among the calls of `t` after a format. */
  predicate RemountAttempted(t: seq<Call>) {
    exists i, j :: 0 <= i < j < |t| && t[i].op == Format && t[j].op == Mount
  }

  /** The calls of the mounting phase: mount, and if that fails, format and,
      only if the format succeeded, mount again. */
  function MountCalls(r: LfsResults): seq<Call> {
    [Call(Mount, r.mount)] +
    if r.mount == ErrOk then []
    else [Call(Format, r.format)] + if r.format == 0 then [Call(Mount, r.remount)] else []
  }

  /** The calls for one directory: stat it, and create it only when stat says
      it does not exist. */
  function DirCalls(path: string, stat: int, mkdir: int): seq<Call> {
    [Call(Stat(path), stat)] + if stat == ErrNoent then [Call(Mkdir(path), mkdir)] else []
  }

  /** The calls of a whole bring-up, in order. It always starts with a mount
      and always stats both directories, "/cfg" first. */
  function Calls(r: LfsResults): (t: seq<Call>)
    ensures 3 <= |t| <= 7
    ensures t[0] == Call(Mount, r.mount)
    ensures t[|t| - 1].op in {Stat(OtaDir), Mkdir(OtaDir)}
  {
    MountCalls(r) + DirCalls(CfgDir, r.statCfg, r.mkdirCfg) + DirCalls(OtaDir, r.statOta, r.mkdirOta)
  }

  /** A call that does not store its result leaves the error code as it was. */
  lemma {:induction false} StatKeepsStatus(t: seq<Call>, c: Call, err: int)
    requires IsLastStatus(t, err)
    requires !SetsErr(c)
    ensures IsLastStatus(t + [c], err)
  {
    var i :| 0 <= i < |t| && SetsErr(t[i]) && t[i].result == err &&
             forall j :: i < j < |t| ==> !SetsErr(t[j]);
    assert (t + [c])[i] == t[i];
    forall j | i < j < |t + [c]| ensures !SetsErr((t + [c])[j]) {
      if j < |t| {
        assert (t + [c])[j] == t[j];
      }
    }
  }

  /** A call that stores its result makes that result the error code. */
  lemma StoreSetsStatus(t: seq<Call>, c: Call)
    requires SetsErr(c)
    ensures IsLastStatus(t + [c], c.result)
  {
    assert (t + [c])[|t|] == c;
  }

  /** The error code is determined by the calls: two candidates are equal. */
  lemma LastStatusUnique(t: seq<Call>, e1: int, e2: int)
    requires IsLastStatus(t, e1) && IsLastStatus(t, e2)
    ensures e1 == e2
  {
  }

  /** The format is attempted exactly when the first mount fails. */
  lemma FormatOnlyAfterFailedMount(r: LfsResults)
    ensures Attempted(Calls(r), Format) <==> r.mount != ErrOk
  {
    var t := Calls(r);
    if r.mount != ErrOk {
      assert t[1].op == Format;
    } else {
      forall i | 0 <= i < |t| ensures t[i].op != Format {
        assert t == [Call(Mount, r.mount)] + DirCalls(CfgDir, r.statCfg, r.mkdirCfg)
                    + DirCalls(OtaDir, r.statOta, r.mkdirOta);
      }
    }
  }

  /** The second mount is attempted exactly when the first mount failed and
      the format that followed returned 0. */
  lemma RemountOnlyAfterFormatOk(r: LfsResults)
    ensures RemountAttempted(Calls(r)) <==> r.mount != ErrOk && r.format == 0
  {
    var t := Calls(r);
    var tail := DirCalls(CfgDir, r.statCfg, r.mkdirCfg) + DirCalls(OtaDir, r.statOta, r.mkdirOta);
    assert t == MountCalls(r) + tail;
    assert forall k :: 0 <= k < |tail| ==> tail[k].op.Stat? || tail[k].op.Mkdir?;
    if r.mount != ErrOk && r.format == 0 {
      assert t[1].op == Format && t[2].op == Mount;
    }
  }

  /** mkdir of a directory is attempted exactly when stat of it returned
      LFS_ERR_NOENT; stat of both directories is always attempted. */
  lemma MkdirOnlyOnNoent(r: LfsResults)
    ensures Attempted(Calls(r), Stat(CfgDir)) && Attempted(Calls(r), Stat(OtaDir))
    ensures Attempted(Calls(r), Mkdir(CfgDir)) <==> r.statCfg == ErrNoent
    ensures Attempted(Calls(r), Mkdir(OtaDir)) <==> r.statOta == ErrNoent
  {
    var mc := MountCalls(r);
    var cfg := DirCalls(CfgDir, r.statCfg, r.mkdirCfg);
    var ota := DirCalls(OtaDir, r.statOta, r.mkdirOta);
    var t := Calls(r);
    assert t == mc + cfg + ota;
    assert forall k :: 0 <= k < |mc| ==> mc[k].op == Mount || mc[k].op == Format;
    assert CfgDir != OtaDir;
    assert t[|mc|] == cfg[0];
    assert t[|mc| + |cfg|] == ota[0];
    if r.statCfg == ErrNoent {
      assert t[|mc| + 1] == cfg[1];
    }
    if r.statOta == ErrNoent {
      assert t[|mc| + |cfg| + 1] == ota[1];
    }
    forall i | 0 <= i < |t| && t[i].op.Mkdir?
      ensures t[i].op == Mkdir(CfgDir) ==> r.statCfg == ErrNoent
      ensures t[i].op == Mkdir(OtaDir) ==> r.statOta == ErrNoent
    {
      if i >= |mc| + |cfg| {
        assert t[i] == ota[i - |mc| - |cfg|];
      } else {
        assert t[i] == cfg[i - |mc|];
      }
    }
  }

  // The intended behaviour: every step that fails is reported.

  /** The filesystem ends up mounted: by the first mount, or by a format
      followed by a successful second mount. */
  predicate Mounted(r: LfsResults) {
    r.mount == ErrOk || (r.format == 0 && r.remount == ErrOk)
  }

  /** A directory is in place: stat found it, or stat reported
      LFS_ERR_NOENT and creating it succeeded. A stat that fails any other
      way (an I/O or corruption error) leaves the directory unaccounted for. */
  predicate DirReady(stat: int, mkdir: int) {
    stat == ErrOk || (stat == ErrNoent && mkdir == ErrOk)
  }

  /** The status a bring-up should report: the first failure among the
      mounting phase, the stat and mkdir of "/cfg" and those of "/ota", or
      success. Unlike the stored error code, a later success never hides an
      earlier failure, and a failing stat is reported too. */
  function IntendedStatus(r: LfsResults): (err: int)
    ensures err == ErrOk <==> Mounted(r) && DirReady(r.statCfg, r.mkdirCfg) && DirReady(r.statOta, r.mkdirOta)
    ensures err != ErrOk ==> exists i :: 0 <= i < |Calls(r)| && Calls(r)[i].result == err &&
                                         (Calls(r)[i].op.Stat? ==> err != ErrNoent)
  {
    var t := Calls(r);
    var mc := MountCalls(r);
    var cfg := DirCalls(CfgDir, r.statCfg, r.mkdirCfg);
    var ota := DirCalls(OtaDir, r.statOta, r.mkdirOta);
    assert t == mc + cfg + ota;
    if r.mount != ErrOk && r.format != 0 then
      assert t[1] == Call(Format, r.format);
      r.format
    else if r.mount != ErrOk && r.remount != ErrOk then
      assert t[2] == Call(Mount, r.remount);
      r.remount
    else if r.statCfg != ErrOk && r.statCfg != ErrNoent then
      assert t[|mc|] == cfg[0];
      r.statCfg
    else if r.statCfg == ErrNoent && r.mkdirCfg != ErrOk then
      assert t[|mc| + 1] == cfg[1];
      r.mkdirCfg
    else if r.statOta != ErrOk && r.statOta != ErrNoent then
      assert t[|mc| + |cfg|] == ota[0];
      r.statOta
    else if r.statOta == ErrNoent && r.mkdirOta != ErrOk then
      assert t[|mc| + |cfg| + 1] == ota[1];
      r.mkdirOta
    else
      ErrOk
  }

  /** Whenever the intended status is success, the stored error code is 0 as
      well: the stored code never reports a failure that did not happen. */
  lemma IntendedOkImpliesStoredOk(r: LfsResults, err: int)
    requires IsLastStatus(Calls(r), err)
    requires IntendedStatus(r) == ErrOk
    ensures err == ErrOk
  {
    var t := Calls(r);
    var mc := MountCalls(r);
    var cfg := DirCalls(CfgDir, r.statCfg, r.mkdirCfg);
    var ota := DirCalls(OtaDir, r.statOta, r.mkdirOta);
    assert t == mc + cfg + ota;
    // The calls that would follow the one that set the error code.
    assert r.mount != ErrOk ==> t[1] == mc[1];
    assert r.mount != ErrOk && r.format == 0 ==> t[2] == mc[2];
    assert r.statCfg == ErrNoent ==> t[|mc| + 1] == cfg[1];
    assert r.statOta == ErrNoent ==> t[|mc| + |cfg| + 1] == ota[1];
    var i :| 0 <= i < |t| && SetsErr(t[i]) && t[i].result == err &&
             forall j :: i < j < |t| ==> !SetsErr(t[j]);
    if i >= |mc| + |cfg| {
      assert t[i] == ota[i - |mc| - |cfg|];
    } else if i >= |mc| {
      assert t[i] == cfg[i - |mc|];
    } else {
      assert t[i] == mc[i];
    }
  }

  /** When "/ota" is missing, the stored error code is the result of creating
      it, whatever happened before: every earlier failure is overwritten. */
  lemma OtaMkdirDecidesStatus(r: LfsResults, err: int)
    requires r.statOta == ErrNoent
    requires IsLastStatus(Calls(r), err)
    ensures err == r.mkdirOta
  {
  }

  /** The stored error code can hide a failure: the filesystem mounts, both
      directories are missing, creating "/cfg" fails for lack of space, yet
      creating "/ota" succeeds, so the stored code is 0 while the intended
      status is the "/cfg" mkdir's error. */
  lemma StoredStatusHidesFailure()
    ensures var r := LfsResults(ErrOk, 0, 0, ErrNoent, -28, ErrNoent, ErrOk);
            IsLastStatus(Calls(r), ErrOk) && IntendedStatus(r) == -28
  {
  }

  /** The same holds after a failed format: the first mount fails, the
      format fails, creating "/cfg" fails, and creating "/ota" succeeds. */
  lemma StoredStatusHidesFailedFormat()
    ensures var r := LfsResults(-84, -5, 0, ErrNoent, -28, ErrNoent, ErrOk);
            IsLastStatus(Calls(r), ErrOk) && IntendedStatus(r) == -5
  {
  }
}
