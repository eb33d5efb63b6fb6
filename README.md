# Start-up logic of the STM32U5 reference application, in Dafny

This project models two start-up steps of `Projects/b_u585i_iot02a_ntz/Src/app_main.c` and proves properties about them.

- **Reset-source classification.** `main` copies the RCC control/status register (RCC_CSR) into the static `ulCsrFlags`. `vDetermineResetSource` then masks that value in place down to the seven reset flags (LPWR, WWDG, IWDG, SFT, BOR, PIN, OBL). It picks one label through a strict-priority chain of tests and logs it. `ulGetResetSource` returns `ulCsrFlags`.
- **Filesystem bring-up (`fs_init`).** It mounts the littlefs partition. If the mount fails, it formats the partition, and mounts again only when the format returned 0. It stats `/cfg` and `/ota`, and creates each one only when stat reports `LFS_ERR_NOENT`. It exports the context `pxLfsCtx` only when the final error code is 0.

Files:

- `reset_source.dfy` (module `ResetSource`) holds the pure part of the classifier:
  - the flags;
  - the labels and their logged texts;
  - the masks;
  - `Masked`, the in-place AND;
  - `ResetLabel`, the priority chain;
  - the lemmas about them.
- `fs_init.dfy` (module `FsInit`) has three parts:
  - the trace of littlefs calls made by one bring-up (`Calls`);
  - the meaning of the stored error code (`IsLastStatus`: the result of the last mount, format or mkdir that ran);
  - the intended, corrected status (`IntendedStatus`).
- `app_main.dfy` (module `AppMain`) holds the class `App`:
  - `csrFlags` models `ulCsrFlags`;
  - `fsCtxExported` models `pxLfsCtx != NULL`;
  - the methods update these fields in place, as the C code does.

Modelling choices:

- A 32-bit register value (`Word`) is the set of positions, 0 to 31, of its 1 bits. Bitwise AND is set intersection, OR is union, and NOT is the complement within the 32 positions. This is an exact encoding of a `uint32_t`.
- The `RCC_CSR_*RSTF_Msk` constants come from the device header `stm32u5xx.h`, which is not part of this model. So the masks are a parameter (`Masks`), fixed when an `App` is built. `Masks.WellFormed` states that the masks are seven single bits, pairwise distinct.
  - The masking, priority, "Unknown" and idempotence results hold for any masks.
  - Only `SingleFlagLabel` (each flag alone is reported as itself) needs `WellFormed`.
- `LFS_ERR_OK` is 0, and the code compares against `LFS_ERR_OK` and against literal 0 interchangeably. `LFS_ERR_NOENT` is littlefs's -2; only equality with it matters. `lfs.h` is not part of this model.
- The littlefs calls are not modelled. The result each call would return is an input (`LfsResults`). `App.FsInit` returns the error code and the calls it made, each paired with the result it got.

## Model

| member | source | states |
|---|---|---|
| `ResetSource.Masked` | Projects/b_u585i_iot02a_ntz/Src/app_main.c:251-254 | After masking, no bit outside the seven reset-flag masks is set. Every bit inside them is as it was, so each flag is set afterwards exactly when it was set before. |
| `ResetSource.ResetLabel` | Projects/b_u585i_iot02a_ntz/Src/app_main.c:256-287 | The label is Unknown exactly when none of the seven flags is set. |
| `ResetSource.UnknownIffMaskedZero` | Projects/b_u585i_iot02a_ntz/Src/app_main.c:251-287 | "Unknown" is chosen exactly when the masked value is zero. |
| `ResetSource.LabelPriority` | Projects/b_u585i_iot02a_ntz/Src/app_main.c:256-283 | Strict priority LPWR > WWDG > IWDG > SFT > BOR > PIN > OBL. A flag's label is chosen exactly when that flag is set and every higher-priority flag is clear (both directions). |
| `ResetSource.LabelIgnoresOtherBits` | Projects/b_u585i_iot02a_ntz/Src/app_main.c:251-287 | Two register values that agree on the seven masks get the same label, so bits outside the masks never influence it. |
| `ResetSource.LabelOfMasked` | Projects/b_u585i_iot02a_ntz/Src/app_main.c:251-287 | The label of the masked value is the label of the raw register value. |
| `ResetSource.MaskIdempotent` | Projects/b_u585i_iot02a_ntz/Src/app_main.c:251-287 | Masking the already-masked value leaves it unchanged and gives the same label. |
| `ResetSource.SingleFlagLabel` | Projects/b_u585i_iot02a_ntz/Src/app_main.c:251-283 | With seven distinct single-bit masks, a register with only flag f set is labelled f, so every flag label is reachable. |
| `AppMain.App.constructor` | Projects/b_u585i_iot02a_ntz/Src/app_main.c:245 | At static initialisation, `ulCsrFlags` is 0 (line 245) and `pxLfsCtx` is NULL (line 49). |
| `AppMain.App.GetResetSource` | Projects/b_u585i_iot02a_ntz/Src/app_main.c:292-295 | Returns 0 before any capture and the raw register after a capture. After classification it returns the masked value, with no bit outside the seven flags, and that value has the raw register's label. |
| `AppMain.App.CaptureCsr` | Projects/b_u585i_iot02a_ntz/Src/app_main.c:299 | `ulCsrFlags` becomes the captured register value. Nothing else changes. |
| `AppMain.App.DetermineResetSource` | Projects/b_u585i_iot02a_ntz/Src/app_main.c:247-290 | Masks `ulCsrFlags` in place. Returns the label of the new value, which is also the old value's label. A second run leaves `ulCsrFlags` unchanged. The object invariant is kept. |
| `AppMain.App.Boot` | Projects/b_u585i_iot02a_ntz/Src/app_main.c:297-309 | After `main` captures CSR and classifies it, `ulGetResetSource` returns the masked raw register and the label is the raw register's label. |
| `AppMain.App.FsInit` | Projects/b_u585i_iot02a_ntz/Src/app_main.c:66-124 | The calls made are exactly `Calls(r)`. The returned error code is the result of the last mount, format or mkdir that ran. The context is exported exactly when that code is 0 (or it was already exported). |
| `AppMain.ExportDespiteFailedMkdir` | Projects/b_u585i_iot02a_ntz/Src/app_main.c:97-123 | On a concrete run where the mount succeeds, both directories are missing, the `/cfg` mkdir fails and the `/ota` mkdir succeeds, `fs_init` returns 0 and exports the context. |
| `FsInit.Calls` | Projects/b_u585i_iot02a_ntz/Src/app_main.c:76-115 | A bring-up makes three to seven calls. The first is always the mount, and the last is the stat or mkdir of `/ota`. |
| `FsInit.FormatOnlyAfterFailedMount` | Projects/b_u585i_iot02a_ntz/Src/app_main.c:76-84 | Format is attempted exactly when the first mount returns a value other than OK. |
| `FsInit.RemountOnlyAfterFormatOk` | Projects/b_u585i_iot02a_ntz/Src/app_main.c:81-89 | A mount after a format is attempted exactly when the first mount failed and the format returned 0. |
| `FsInit.MkdirOnlyOnNoent` | Projects/b_u585i_iot02a_ntz/Src/app_main.c:97-115 | Both directories are always stat'ed. mkdir of `/cfg` (resp. `/ota`) is attempted exactly when its stat returned `LFS_ERR_NOENT`. |
| `FsInit.StatKeepsStatus` | Projects/b_u585i_iot02a_ntz/Src/app_main.c:97-115 | A stat result is only compared, never stored, so a stat leaves the error code untouched. |
| `FsInit.StoreSetsStatus` | Projects/b_u585i_iot02a_ntz/Src/app_main.c:76-109 | A mount, format or mkdir makes its own result the error code. |
| `FsInit.LastStatusUnique` | Projects/b_u585i_iot02a_ntz/Src/app_main.c:117-123 | The calls made determine the returned error code uniquely. |
| `FsInit.IntendedStatus` | Projects/b_u585i_iot02a_ntz/Src/app_main.c:81-123 | The corrected status is OK exactly when the filesystem ended up mounted and each directory was either found by stat (stat returned 0) or reported missing and then created. A failing corrected status is the result of a call that ran: a mount, format or mkdir, or a stat that failed with an error other than `LFS_ERR_NOENT`. |
| `FsInit.IntendedOkImpliesStoredOk` | Projects/b_u585i_iot02a_ntz/Src/app_main.c:117-123 | Whenever the corrected status is OK, the stored error code is 0 too. The code as written never reports a failure that did not happen. |
| `FsInit.OtaMkdirDecidesStatus` | Projects/b_u585i_iot02a_ntz/Src/app_main.c:109-123 | For every run in which stat of `/ota` reports `LFS_ERR_NOENT`, the stored error code is the `/ota` mkdir's result, whatever failed before. |
| `FsInit.StoredStatusHidesFailure` | Projects/b_u585i_iot02a_ntz/Src/app_main.c:97-123 | On the run of the finding (mount 0, stat `/cfg` -2, mkdir `/cfg` -28, stat `/ota` -2, mkdir `/ota` 0), the stored error code is 0 but the corrected status is -28. |
| `FsInit.StoredStatusHidesFailedFormat` | Projects/b_u585i_iot02a_ntz/Src/app_main.c:81-123 | On a run where the first mount (-84), the format (-5) and the `/cfg` mkdir (-28) fail and the `/ota` mkdir succeeds, the stored error code is 0 but the corrected status is the format's error. |

## Findings

| source | as written | input that shows it | evidently intended | confidence | as-written member | corrected member |
|---|---|---|---|---|---|---|
| Projects/b_u585i_iot02a_ntz/Src/app_main.c:84-121 | `err` is overwritten by every later format, mount or mkdir, and the context is exported when the last of them returned 0; a stat that fails with an error other than `LFS_ERR_NOENT` is ignored | mount 0, stat `/cfg` -2 (`LFS_ERR_NOENT`), mkdir `/cfg` -28 (`LFS_ERR_NOSPC`), stat `/ota` -2, mkdir `/ota` 0: returns 0 and exports the context | report the first failure, and export only when the filesystem is mounted and both directories were found or created | medium; not executed | `AppMain.ExportDespiteFailedMkdir` | `FsInit.IntendedStatus` |

The C code as written is what `App.FsInit` models. `IntendedStatus` is the corrected status, and `IntendedOkImpliesStoredOk` shows that the two differ only where the code hides a failure. `OtaMkdirDecidesStatus` shows that the hiding is not confined to one run: whenever `/ota` is missing, its mkdir alone decides the returned code. The same happens after a failed format (`StoredStatusHidesFailedFormat`).

## Left out

- The command-line interpreter (command registry, tokenizer, dispatcher, shared output buffer). `Common/cli/cli_prv.h` only declares its types and prototypes, and the files that implement it are not part of this model.
- The littlefs and flash calls themselves (`pxInitializeOSPIFlashFs`, `lfs_mount`, `lfs_format`, `lfs_stat`, `lfs_mkdir`, `FLASH_WaitForLastOperation`). They are foreign library and hardware code, so only their integer results enter the model.
- The reading of `RCC->CSR` and `__HAL_RCC_CLEAR_RESET_FLAGS`. This is hardware access: the register value is a parameter of `App.CaptureCsr`.
- Logging (`LogSys`, `LogError`, `LogInfo`, `LogDebug`). This is output only. `DetermineResetSource` returns the label, and `LabelText` gives the text that would be logged.
- `pxGetDefaultFsCtx`. It is a polling loop that sleeps while another task runs `fs_init`, which is concurrency.
- `vInitTask` and the rest of `main` (task creation, event bits, `KVStore_init`, the scheduler). This is RTOS concurrency.
- `vRelocateVectorTable`. It copies the vector table and sets the SCB/VTOR, cache and interrupt registers, all of which is hardware.
- `vHeartbeatTask`, `uxRand`, the idle and timer task memory callbacks, and the malloc-failed, stack-overflow and idle hooks. These are GPIO, RNG, watchdog and static-buffer hand-out, with no logic that can be stated.
- `App.FsInit` models `pxLfsCtx` as a boolean. It does not model which `lfs_t` object is exported (always the static `xLfsCtx`).
- `FsInit.IntendedStatus`: counts a directory as found whenever stat returns 0, without checking that the entry is a directory rather than a regular file. The `lfs_info` type field is not part of this model, and the C code does not read it either.
