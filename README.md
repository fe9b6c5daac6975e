# Smash Hit Vita runtime shim: a Dafny model

This project models the three pieces of logic in the Smash Hit port for PS Vita
that run between the closed Android binary and the host:

- **The input queue and event accessors** (lib/falso_ndk/AInput.cpp). This is the
  process-wide `AInputQueue`: a FIFO of event pointers, the list of attached
  loopers with duplicates rejected, and an eventfd in semaphore mode used as a
  wake counter. It also covers the read-only `AInputEvent_*`, `AKeyEvent_*` and
  `AMotionEvent_*` accessors over the event record, with their null sentinels,
  index clamping and axis switch.
- **The QiFileInputStream replacements** (source/patch.c). These are path
  normalisation under `ux0:data/smash_hit/assets`, the open and lean open hooks,
  close, isOpen and getSize on the binary's stream object, and the table of
  mangled symbols that `so_patch` hooks.
- **The JNI `command` callback and the registries** (source/java.c). `command`
  takes the first token of its argument and returns a fixed reply from an
  ordered chain of substring tests. The registries are constant tables.

Files:

- `c_strings.dfy` (module `CStrings`) models `strstr` and `strtok`.
- `input_events.dfy` (module `InputEvents`) models the event record, its
  allocation and its accessors.
- `input_queue.dfy` (module `InputQueue`) models the queue. Each C entry point
  is a method that takes nullable pointers, so the NULL paths are modelled. Each
  method is proved against a specification function on an abstract
  `QueueState`. The queue invariant and FIFO order are proved as lemmas about
  those functions.
- `patch.dfy` (module `Patch`) models the file-stream hooks and the hook table.
- `java.dfy` (module `Java`) models `command` and the registries.

Modelling choices:

- Each queue operation runs under the queue mutex in the source. Here it is one
  atomic step.
- The eventfd is a counter with a `valid` flag:
  - a read takes 1 off a positive counter and otherwise fails;
  - a write adds 1;
  - both fail on an eventfd whose creation failed.
- `ALooper_addFd` and `ALooper_removeFd` are recorded as a multiset of
  registrations.
- The host file layer is a map from file name to size. Its handles remember
  their position and whether they were closed.
- Android constants come from the NDK header android/input.h:
  - `AINPUT_SOURCE_UNKNOWN` is 0;
  - the axis codes are X 0, Y 1, Z 11, RX 12, RY 13, RZ 14, HAT_X 15, HAT_Y 16,
    LTRIGGER 17, RTRIGGER 18, GAS 22, BRAKE 23.

Where a reader's expectations and the code differ, the model follows the code:

- Nothing bounds the event's pointer count by 10. The record is copied
  verbatim, so `pointerCount` is any `nat`.
- The counter is only ever 0 or 1, not one per event. The `Inv` lemmas prove
  this.
- A path is "already resolved" when `ux0:` occurs anywhere in it, not only at
  its start.
- Closing a stream does not clear its handle, so `isOpen` still reports it
  open.

## Model

| member | source | states |
|---|---|---|
| `CStrings.ContainsIff` | source/patch.c:61 | `strstr` succeeds exactly when the needle occurs at some index of the haystack, not only at index 0 |
| `CStrings.Strtok` | source/java.c:14-15 | `strtok(s, " ")` returns NULL exactly when `s` is all spaces. Otherwise it returns a non-empty token without spaces: `s` is a run of spaces, then the token, then either the end, where the next call resumes on the empty rest, or one space and the rest where the next call resumes |
| `Java.OnlyToken` | source/java.c:14-15 | `strtok` on a single token returns that token and leaves nothing to resume on |
| `Java.FirstToken` | source/java.c:14-15 | `strtok` on a token, a space and a rest returns the token and resumes on exactly that rest |
| `InputEvents.EventHeap.Create` | lib/falso_ndk/AInput.cpp:145-149 | `AInputEvent_create` returns a new event holding a verbatim copy of the template, and it becomes live |
| `InputEvents.ClampIndex` | lib/falso_ndk/AInput.cpp:202 | indices below 10 are kept and indices of 10 or more become 9 |
| `InputEvents.GetType` | lib/falso_ndk/AInput.cpp:151-155 | a NULL event gives -1; otherwise the stored type |
| `InputEvents.GetSource` | lib/falso_ndk/AInput.cpp:157-161 | a NULL event gives `AINPUT_SOURCE_UNKNOWN`; otherwise the stored source |
| `InputEvents.KeyGetAction` | lib/falso_ndk/AInput.cpp:163-167 | a NULL event gives 0; otherwise the key action |
| `InputEvents.KeyGetKeyCode` | lib/falso_ndk/AInput.cpp:169-173 | a NULL event gives 0; otherwise the key code |
| `InputEvents.KeyGetRepeatCount` | lib/falso_ndk/AInput.cpp:175-179 | a NULL event gives 0; otherwise the repeat count |
| `InputEvents.KeyGetScanCode` | lib/falso_ndk/AInput.cpp:181-185 | a NULL event gives 0; otherwise the scan code |
| `InputEvents.MotionGetAction` | lib/falso_ndk/AInput.cpp:187-191 | a NULL event gives 0; otherwise the motion action, a separate field from the key action |
| `InputEvents.MotionGetPointerCount` | lib/falso_ndk/AInput.cpp:193-197 | a NULL event gives 0; otherwise the stored pointer count |
| `InputEvents.MotionGetPointerId` | lib/falso_ndk/AInput.cpp:199-204 | a NULL event gives 0; an index below 10 reads that slot; an index of 10 or more reads slot 9 |
| `InputEvents.MotionGetX` | lib/falso_ndk/AInput.cpp:206-211 | a NULL event gives 0; an index below 10 reads that X slot; an index of 10 or more reads slot 9 |
| `InputEvents.MotionGetY` | lib/falso_ndk/AInput.cpp:213-218 | a NULL event gives 0; an index below 10 reads that Y slot; an index of 10 or more reads slot 9 |
| `InputEvents.AxisValue` | lib/falso_ndk/AInput.cpp:220-251 | the eight stored axes return their per-pointer value. RX, RY, GAS, BRAKE, unknown axes and a NULL event return 0. The index is not clamped, so it must be below 10 exactly when a slot is read |
| `InputEvents.HistoricalAxisValue` | lib/falso_ndk/AInput.cpp:253-257 | every historical sample equals the current axis value, whatever the history index |
| `InputEvents.AccessorsAgreeWithAxisValue` | lib/falso_ndk/AInput.cpp:199-228 | for an index below 10, getX and getY agree with the X and Y axis lookups. For an index of 10 or more, getX, getY and getPointerId equal their slot-9 values |
| `InputQueue.EventFd.constructor` | lib/falso_ndk/AInput.cpp:30 | a new eventfd starts at 0; its validity records whether creation succeeded |
| `InputQueue.EventFd.Read` | lib/falso_ndk/AInput.cpp:104 | a semaphore-mode read on a positive counter returns 8 and takes 1 off. Otherwise it returns -1 and leaves the counter alone |
| `InputQueue.EventFd.Write` | lib/falso_ndk/AInput.cpp:133 | writing 1 returns 8 and adds 1 on a valid eventfd; on an invalid one it returns -1 |
| `InputQueue.EventFd.Drain` | lib/falso_ndk/AInput.cpp:100-108 | reading until a read would block leaves a valid counter at 0 |
| `InputQueue.EmptyQueueInv` | lib/falso_ndk/AInput.cpp:29-38 | a new queue satisfies the invariant |
| `InputQueue.WakeTracksPending` | lib/falso_ndk/AInput.cpp:130-137 | under the invariant, the counter of a valid eventfd is positive exactly when events are pending |
| `InputQueue.EnqueuedInv` | lib/falso_ndk/AInput.cpp:125-139 | enqueueing preserves the invariant: the counter goes to 1 only on the empty to non-empty transition |
| `InputQueue.DequeuedInv` | lib/falso_ndk/AInput.cpp:80-114 | getEvent preserves the invariant: a pop that empties the list drains the counter to 0 |
| `InputQueue.AttachedInv` | lib/falso_ndk/AInput.cpp:46-66 | attaching preserves the invariant: no duplicate loopers, and each attached looper is registered exactly once |
| `InputQueue.UnwatchedClears` | lib/falso_ndk/AInput.cpp:73-75 | removing the fd from each listed looper zeroes their registrations and leaves every other looper's alone |
| `InputQueue.DetachedInv` | lib/falso_ndk/AInput.cpp:68-78 | detaching preserves the invariant and leaves no registration behind |
| `InputQueue.AttachTwiceRegistersOnce` | lib/falso_ndk/AInput.cpp:53-64 | a new looper is appended at the end and registered once; attaching it again changes nothing |
| `InputQueue.EnqueueAllAppends` | lib/falso_ndk/AInput.cpp:130 | n enqueues append the n events at the tail in order |
| `InputQueue.DequeueAllTakesInOrder` | lib/falso_ndk/AInput.cpp:95-97 | as many getEvent calls as there are pending events return them head first |
| `InputQueue.DequeueAllEmpties` | lib/falso_ndk/AInput.cpp:97 | those calls leave the list empty |
| `InputQueue.Fifo` | lib/falso_ndk/AInput.cpp:80-139 | n enqueues on an empty queue followed by n getEvent calls return the events in enqueue order, and the next getEvent reports `-EAGAIN` |
| `InputQueue.InputQueue.constructor` | lib/falso_ndk/AInput.cpp:29-38 | a new queue has no events, no loopers, no registrations and a zero counter |
| `InputQueue.Globals.CreateQueue` | lib/falso_ndk/AInput.cpp:26-44 | once a queue exists, every call returns that same queue; the first call creates a fresh, empty queue and stores it in the global |
| `InputQueue.FindLooper` | lib/falso_ndk/AInput.cpp:53-58 | the linear scan finds the looper exactly when it is already attached |
| `InputQueue.AttachLooper` | lib/falso_ndk/AInput.cpp:46-66 | a NULL queue or looper changes nothing. Otherwise the new state is `Attached` of the old state: an attached looper is ignored, and a new one is appended and registered once. The queue invariant is preserved |
| `InputQueue.DetachLooper` | lib/falso_ndk/AInput.cpp:68-78 | a NULL queue is ignored. Otherwise every attached looper is unregistered and the list is cleared. The queue invariant is preserved and no registration is left |
| `InputQueue.GetEvent` | lib/falso_ndk/AInput.cpp:80-114 | a NULL queue or `outEvent` returns -1 and changes nothing. Otherwise `*outEvent` is the old head and that element is removed, or NULL with `-EAGAIN` on an empty list. The counter is drained whenever the list is left empty. The queue invariant is preserved |
| `InputQueue.EnqueueEvent` | lib/falso_ndk/AInput.cpp:125-139 | a NULL queue or event changes nothing. Otherwise the event goes to the tail, and the counter is signalled only when the list size becomes 1. The queue invariant is preserved |
| `InputQueue.PreDispatchEvent` | lib/falso_ndk/AInput.cpp:116-119 | never pre-dispatches: always 0 (false) |
| `InputQueue.FinishEvent` | lib/falso_ndk/AInput.cpp:121-123 | frees a non-null event whatever `handled` says; NULL frees nothing. Freeing twice is excluded, as in C |
| `Patch.FullNameShape` | source/patch.c:61-69 | a path containing `ux0:` anywhere is used unchanged. Any other path becomes `ux0:data/smash_hit/assets/` followed by the path without its leading `/`, if it had one: no separator is added at the join when the path already starts with `/` |
| `Patch.FullNameIdempotent` | source/patch.c:59-69 | every full name contains `ux0:`, so normalising it again changes nothing |
| `Patch.PrefixAnywhereKeepsPath` | source/patch.c:61 | the test is a substring test: `ux0:` anywhere in a path keeps it as it is |
| `Patch.MakeQiString` | source/patch.c:37-43 | the QiString's data is the string, and its length and allocated size both equal its strlen |
| `Patch.FileHandle.SeekEnd` | source/patch.c:78 | seeking to the end puts the position at the file size |
| `Patch.LongPosition` | source/patch.c:79 | what `ftell` returns in a 32-bit `long`: the position when it is at most 2^31 - 1, otherwise -1 |
| `Patch.FileHandle.Tell` | source/patch.c:79 | `ftell` returns the current position, or -1 when it does not fit a 32-bit `long` |
| `Patch.FileHandle.SeekStart` | source/patch.c:80 | seeking to the start puts the position at 0 |
| `Patch.FileHandle.Close` | source/patch.c:115 | `fclose` closes an open handle |
| `Patch.HostFiles.Open` | source/patch.c:71 | `fopen` gives a fresh handle at position 0 on an existing file, and NULL otherwise |
| `Patch.QiFileInputStream.OpenFullName` | source/patch.c:71-83 | on failure `file` is NULL and `length` and `path` are unchanged. On success `length` is the file's size as `ftell` reports it (-1 for a file of 2^31 bytes or more), the handle is back at position 0, and `path` is the QiString of the full name |
| `Patch.QiFileInputStream.Open` | source/patch.c:59-84 | the full name must fit the 512-byte buffer. The same field updates as `OpenFullName` for the normalised name, and the handle (NULL on failure) is returned |
| `Patch.QiFileInputStream.OpenLeanAndMean` | source/patch.c:86-111 | the same field updates as `Open`, but the returned value is 1 on success and NULL (0) on failure instead of the handle |
| `Patch.QiFileInputStream.Close` | source/patch.c:113-117 | closes the handle but leaves the `file` field set, so `IsOpen` still returns 1 |
| `Patch.QiFileInputStream.IsOpen` | source/patch.c:119-122 | 1 exactly when the stored handle is non-null, otherwise 0 |
| `Patch.QiFileInputStream.GetSize` | source/patch.c:124-127 | the stored length; it reads only the stream object, never the handle or the file layer |
| `Patch.SizeIsCached` | source/patch.c:124-127 | after a successful open, a later change to the file's size does not change what getSize reports: it stays the size `ftell` gave at open time |
| `Patch.ReplacementFor` | source/patch.c:134-140 | the replacement found for a symbol is one installed for it; when nothing is found, no install names the symbol |
| `Patch.ReplacementForEntry` | source/patch.c:134-140 | when no symbol is hooked twice, a call through an installed symbol reaches exactly the replacement installed for it |
| `Patch.HookTableAsWritten` | source/patch.c:132-141 | six distinct symbols are hooked. The isOpen symbol reaches the close replacement, and the isOpen replacement is never installed |
| `Patch.IntendedHookTableMatchesNames` | source/patch.c:119-122 | with isOpen bound to its own replacement, every hooked symbol reaches the replacement for its own method |
| `Java.FirstReplyIsFirstMatch` | source/java.c:17-26 | the entries are tried in order, and the first whose key occurs in the token wins even when later entries also match |
| `Java.FirstReplyNoMatch` | source/java.c:27-31 | a token containing none of the keys gets `""` |
| `Java.Command` | source/java.c:10-32 | requires a non-space token, since `strstr(NULL, …)` is undefined. The reply is the first matching entry of the ordered table: storegetstatus `"2"`, storeisrestored `"true"`, storegetprice `""`, issignedin `"false"`, storeenabled `"true"`, otherwise `""` |
| `Java.Value` | source/java.c:15 | the second `strtok(NULL, " ")` token. There is none when there is no key; when there is one, it is a non-empty run of non-spaces |
| `Java.NoValueAfterOneToken` | source/java.c:15 | for a one-token argument the second `strtok` returns NULL |
| `Java.ValueOfTokens` | source/java.c:14-15 | in `key value` and in `key value rest` the second token is `value` |
| `Java.KeyOfToken` | source/java.c:14 | the key of a token, alone or followed by a space and anything else, is that token |
| `Java.CommandIgnoresValue` | source/java.c:14-17 | only the first token is tested: anything after the first space leaves the reply unchanged |
| `Java.Lookup` | source/java.c:45-47 | a lookup by id returns the value of an entry with that id, or nothing when no entry has it |
| `Java.MethodIdOf` | source/java.c:34-36 | a method name resolves to its registry entry, and an unregistered name to nothing |
| `Java.FieldIdOf` | source/java.c:64-67 | a field name resolves to its registry entry, and an unregistered name to nothing |
| `Java.RegistryContents` | source/java.c:34-79 | `command` is object method 10 and runs `command`. `WINDOW_SERVICE` is object field 0 holding `"window"`. `SDK_INT` is int field 1 holding 19 |

## Left out

- Locking: the `pthread_mutex` around each queue operation is not modelled. Each operation is one atomic step.
- `controls_init` is not modelled. It is the platform input thread started by queue creation, outside this core.
- Logging is not modelled: `ALOGE`/`ALOGW`/`ALOGD`, `l_info`/`l_warn`, the `printf` in `command`, and `errno`.
- The `Debug::log` replacement (`hook_debug_log`) only logs. It appears in the hook table only.
- Hook installation is not modelled: `hook_addr`, `so_symbol`, and what happens when a symbol does not resolve. Only the symbol-to-replacement table is.
- The ident, callback and data that `attachLooper` hands to `ALooper_addFd` are not modelled. A registration records only the looper.
- Byte layout is not modelled: `QiFileInputStream`'s unknown fields and `headpos`, and QiString's inline cache. `malloc` failure in `AInputEvent_create` is not modelled either.
- Float values are kept as opaque bit patterns, because they are only stored and returned.
- `HostFiles.Open` fails only for a missing file. Other `fopen` failures are not modelled.
- `InputQueue.EventFd.Write`: does not model the eventfd counter's 64-bit ceiling, because the counter never exceeds 1 under the queue invariant.
- The FalsoJNI code that searches the registries is not part of this model. `Java.Lookup`, `Java.MethodIdOf` and `Java.FieldIdOf` stand for a search by key.
- `Patch.QiFileInputStream.Close`: requires a non-null handle that is still open. `close_hook` (source/patch.c:113-117) passes `this->file` to `fclose` unchecked, so `close()` after a failed open (`file` is NULL) or a second close is not modelled. Both are undefined in C. Under the hook table as written, each `isOpen()` call already closes the handle, so a later `close()` is such a second close.
- C strings are `string`, a sequence of Dafny characters: they are not restricted to byte-range, non-NUL characters. So the 512-byte bound on the full name in `Patch.QiFileInputStream.Open` and `Patch.QiFileInputStream.OpenLeanAndMean` counts characters. This matches bytes only for ASCII names.
- source/main.c is not modelled. It is a linear sequence of calls into the foreign binary.
- lib/falso_ndk/AAssetManager.h and lib/falso_ndk/utils/sensors.h hold declarations only.

## Findings

| source | as written | input that shows it | evidently intended | confidence | as-written member | corrected member |
|---|---|---|---|---|---|---|
| source/patch.c:139 | the `isOpen` symbol is hooked to `QiFileInputStream_close_hook`, so the binary's `isOpen()` closes the file and returns no defined value | any call of `QiFileInputStream::isOpen()` after `so_patch` | hook `QiFileInputStream_isOpen_hook` (source/patch.c:119-122), which is defined but never installed | medium, not executed | `Patch.HookTableAsWritten` | `Patch.IntendedHookTableMatchesNames` |
