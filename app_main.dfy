/** The start-up state of the application: the reset flags captured from
    RCC_CSR, and whether the littlefs context has been exported for the
    other tasks. */
module AppMain {
  import opened ResetSource
  import opened FsInit

  class App {
    /** The RCC_CSR_*RSTF_Msk constants of the device. */
    const masks: Masks

    /** ulCsrFlags: the captured register, masked once classified. */
    var csrFlags: Word

    /** pxLfsCtx != NULL: the filesystem context is available to other tasks. */
    var fsCtxExported: bool

    /** The register value last captured, and whether it has been classified
        since. */
    ghost var capturedCsr: Word
    ghost var classified: bool

    ghost predicate Valid()
      reads this
    {
      csrFlags == if classified then Masked(masks, capturedCsr) else capturedCsr
    }

    /** Static initialisation: ulCsrFlags is 0 and pxLfsCtx is NULL. */
    constructor (m: Masks)
      ensures Valid() && masks == m
      ensures csrFlags == Zero && !classified && !fsCtxExported
    {
      masks := m;
      csrFlags := Zero;
      fsCtxExported := false;
      capturedCsr := Zero;
      classified := false;
    }

    /** ulGetResetSource: the value last captured, or its masked form once
        classified; after classification no bit outside the seven reset
        flags is ever returned, and the returned value gets the same label as
        the raw register. */
    function GetResetSource(): (r: Word)
      reads this
      requires Valid()
      ensures r == if classified then Masked(masks, capturedCsr) else capturedCsr
      ensures classified ==> r * Not(masks.All()) == Zero
      ensures classified ==> ResetLabel(masks, r) == ResetLabel(masks, capturedCsr)
    {
      LabelOfMasked(masks, capturedCsr);
      csrFlags
    }

    /** The capture of RCC->CSR into ulCsrFlags done first thing in main. */
    method CaptureCsr(csr: Word)
      requires Valid()
      modifies this
      ensures Valid() && capturedCsr == csr && !classified
      ensures GetResetSource() == csr
      ensures fsCtxExported == old(fsCtxExported)
    {
      csrFlags := csr;
      capturedCsr := csr;
      classified := false;
    }

    /** vDetermineResetSource: masks ulCsrFlags down to the seven reset flags
        in place and returns the label it logs. The label depends only on the
        flags, so it is also the label of the value before masking; running it
        a second time changes nothing. */
    method DetermineResetSource() returns (source: Label)
      requires Valid()
      modifies this
      ensures Valid() && classified && capturedCsr == old(capturedCsr)
      ensures csrFlags == Masked(masks, old(csrFlags))
      ensures old(classified) ==> csrFlags == old(csrFlags)
      ensures source == ResetLabel(masks, csrFlags) == ResetLabel(masks, old(csrFlags))
      ensures fsCtxExported == old(fsCtxExported)
    {
      if classified {
        MaskIdempotent(masks, capturedCsr);
      }
      LabelOfMasked(masks, csrFlags);
      csrFlags := csrFlags * masks.All();
      classified := true;
      source := ResetLabel(masks, csrFlags);
    }

    /** The reset-source part of main: capture RCC->CSR, then classify it. */
    method Boot(csr: Word) returns (source: Label)
      requires Valid()
      modifies this
      ensures Valid() && classified && capturedCsr == csr
      ensures GetResetSource() == Masked(masks, csr)
      ensures source == ResetLabel(masks, csr)
      ensures fsCtxExported == old(fsCtxExported)
    {
      CaptureCsr(csr);
      source := DetermineResetSource();
    }

    /** fs_init: mount, format and remount if needed, create the missing
        directories, and export the context when the final error code is 0.
        Returns the error code and the calls it made. The error code is the
        result of the last mount, format or mkdir that ran, so a later
        success overwrites an earlier failure. */
    method FsInit(r: LfsResults) returns (err: int, calls: seq<Call>)
      modifies this`fsCtxExported
      ensures calls == Calls(r)
      ensures IsLastStatus(calls, err)
      ensures fsCtxExported == (old(fsCtxExported) || err == ErrOk)
    {
      err := r.mount;
      calls := [Call(Mount, err)];
      StoreSetsStatus([], calls[0]);
      if err != ErrOk {
        err := r.format;
        StoreSetsStatus(calls, Call(Format, err));
        calls := calls + [Call(Format, err)];
        if err == 0 {
          err := r.remount;
          StoreSetsStatus(calls, Call(Mount, err));
          calls := calls + [Call(Mount, err)];
        }
      }
      assert calls == MountCalls(r);

      var stat := r.statCfg;
      StatKeepsStatus(calls, Call(Stat(CfgDir), stat), err);
      calls := calls + [Call(Stat(CfgDir), stat)];
      if stat == ErrNoent {
        err := r.mkdirCfg;
        StoreSetsStatus(calls, Call(Mkdir(CfgDir), err));
        calls := calls + [Call(Mkdir(CfgDir), err)];
      }
      assert calls == MountCalls(r) + DirCalls(CfgDir, r.statCfg, r.mkdirCfg);

      stat := r.statOta;
      StatKeepsStatus(calls, Call(Stat(OtaDir), stat), err);
      calls := calls + [Call(Stat(OtaDir), stat)];
      if stat == ErrNoent {
        err := r.mkdirOta;
        StoreSetsStatus(calls, Call(Mkdir(OtaDir), err));
        calls := calls + [Call(Mkdir(OtaDir), err)];
      }

      if err == 0 {
        fsCtxExported := true;
      }
    }
  }

  /** The bring-up as written exports the context although creating "/cfg"
      failed: the filesystem mounts, both directories are missing, creating
      "/cfg" fails and creating "/ota" succeeds, yet fs_init returns 0 and
      the context is exported. */
  method ExportDespiteFailedMkdir(m: Masks) returns (err: int, exported: bool)
    ensures err == ErrOk && exported
  {
    var app := new App(m);
    var r := LfsResults(ErrOk, 0, 0, ErrNoent, -28, ErrNoent, ErrOk);
    var calls;
    err, calls := app.FsInit(r);
    OtaMkdirDecidesStatus(r, err);
    exported := app.fsCtxExported;
  }
}
