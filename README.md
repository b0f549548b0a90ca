# Pathname translation in the VFS, modelled in Dafny

This project models the pathname-resolution layer of the kernel's virtual file
system, `kernel/fs/vfs/vfslookup.c`:

- `getdevice` scans a NUL-terminated path for its first `:` or `/` and sorts it
  into one of four forms: relative, `device:sub`, `/sub` (from the boot
  filesystem) and `:sub` (from the root of the current directory's
  filesystem). It truncates the buffer at the colon of a device path and
  returns where the subpath begins, with an owned reference to the start vnode.
- `vfs_lookup` returns that start vnode when the subpath is empty. Otherwise it
  passes the subpath to the filesystem's `VOP_LOOKUP` and then releases the
  start vnode.
- `vfs_setbootfs` and `change_bootfs` normalise a device name, make it the
  current directory, and install the new current directory as the anchor
  `bootfs_vnode`. The old anchor is released only after the new one is in place.

Layout:

- `wrappers.dfy` holds `Option` and `Result`.
- `refs.dfy` (module `VnodeRefs`) is the vnode reference protocol. It keeps a
  map from vnode to a positive count. A vnode that is not in the map has count
  zero, which means it was destroyed.
- `path_syntax.dfy` (module `PathSyntax`) gives the path forms as pure
  functions of the path text, with lemmas.
- `vfs_lookup.dfy` (module `VfsLookup`) holds the imperative core. The class
  `Vfs` contains the counts, the anchor and the current directory, and its
  methods follow the C functions. The scanning loops of `getdevice` work on an
  `array<char>` that ends in its only NUL. `GetDevice` and its branch methods
  `DeviceRootStart` and `RoleRelativeStart` are proved against the
  specification functions `StartVnode` and `Expected`.
  `Lookup` is proved against `Resolve`. `ChangeBootfs`, `ChDir` and `SetBootfs`
  state their whole new state: the anchor, the current directory and the
  counts, written with `Bump`, `Drop` and `DropIfSome`.

The routines `vfslookup.c` calls but does not define are methods of `Vfs`:
`vfs_getcurdir`, `vfs_getroot`, `FSOP_GETROOT`, `VOP_LOOKUP`, `vfs_chdir`,
`VOP_INCREF` and `VOP_DECREF`.

- `vfs_getroot`, `FSOP_GETROOT` and `VOP_LOOKUP` read the tables
  `deviceRoot`, `fsRoot` and `lookupIn`, which are fixed when the object is
  built. `vfs_getcurdir` yields the current directory `cwd`. The table `fsOf`
  stands for a vnode's `vn_fs`, read at line 147. Each of these four accessors
  hands out an owned reference (count + 1) on success and changes no count on
  failure.
- `vfs_chdir` reads the table `chdirTarget`. It hands out no reference: on
  success it moves the current directory's reference, +1 on the new directory
  and -1 on the old one. On failure nothing changes.
- `VOP_INCREF` adds one reference and `VOP_DECREF` gives one up. They read no
  table.

`Vfs.Valid()` says three things:

- the anchor holds one reference to its vnode;
- the current directory holds one reference to its vnode;
- the current directory belongs to a filesystem.

The assertions at lines 127 and 136 follow from the branch tests before them.
The one at line 147 holds under this invariant. None of the three is modelled
as an abort.

The comment at `vfslookup.c:182` says a colon is allowed only at the end of
the name. The code rejects every name that contains one (see Findings). The
model follows the code.

## Model

| member | source | states |
|---|---|---|
| `PathSyntax.FirstDelim` | kernel/fs/vfs/vfslookup.c:74-83 | returns the index of the first `:` or `/`: that character is a delimiter and none comes before it; returns None exactly when the path has no delimiter |
| `PathSyntax.Classify` | kernel/fs/vfs/vfslookup.c:85-97 | a device form's colon is above 0, holds `:` and is the first delimiter; the form is `/`-relative exactly when the path starts with `/` and `:`-relative exactly when it starts with `:` |
| `PathSyntax.ClassifyByFirstDelimiter` | kernel/fs/vfs/vfslookup.c:74-97 | only the first delimiter decides the form: at index 0 it is role-relative by its character; above 0 a colon gives `Device(i)` and a slash gives `Relative` |
| `PathSyntax.ClassifyWithoutDelimiter` | kernel/fs/vfs/vfslookup.c:85-95 | a path with no `:` and no `/` is relative and is its own subpath |
| `PathSyntax.SkipSlashes` | kernel/fs/vfs/vfslookup.c:100-103 | the index it returns is not before the start; every character skipped is `/`; the character it stops at is not `/` |
| `PathSyntax.SubpathStart` | kernel/fs/vfs/vfslookup.c:93-104 | a relative path's subpath starts at 0; other forms start after the colon or the lead, past a run of `/` only, and never at a `/` |
| `PathSyntax.Subpath` | kernel/fs/vfs/vfslookup.c:154-159 | the subpath is a suffix of the path, is the whole path when relative, and never starts with `/` |
| `PathSyntax.DeviceName` | kernel/fs/vfs/vfslookup.c:99 | the device name is the non-empty, delimiter-free text before the colon |
| `PathSyntax.IndexOf` | kernel/fs/vfs/vfslookup.c:180 | the first occurrence of a character, or None exactly when it does not occur |
| `PathSyntax.DeviceForm` | kernel/fs/vfs/vfslookup.c:97-104 | `name:` + n slashes + rest is device-qualified at `|name|`, names `name` and leaves `rest` as subpath |
| `PathSyntax.DeviceSlashesIgnored` | kernel/fs/vfs/vfslookup.c:100-104 | `dev:foo` and `dev:///foo` have the same form, device name and subpath |
| `PathSyntax.RoleForm` | kernel/fs/vfs/vfslookup.c:129-159 | a lead `/` or `:` followed by n slashes and rest is boot- or current-fs-relative with subpath `rest`; only `/` is collapsed |
| `PathSyntax.SlashFirstIsRelative` | kernel/fs/vfs/vfslookup.c:74-95 | when a `/` comes first after a non-empty name, the path is relative and is handed on whole, whatever follows (`a/b:c`) |
| `PathSyntax.RelativeExamples` | kernel/fs/vfs/vfslookup.c:85-95 | `foo/bar` and `a/b:c` are relative and kept whole |
| `PathSyntax.DeviceExamples` | kernel/fs/vfs/vfslookup.c:97-104 | `dev1:foo` and `dev1:/foo` both name `dev1` with subpath `foo` |
| `PathSyntax.MoreDeviceExamples` | kernel/fs/vfs/vfslookup.c:97-104 | `a:b/c` is device-qualified with subpath `b/c`; `dev:` has an empty subpath |
| `PathSyntax.RoleExamples` | kernel/fs/vfs/vfslookup.c:129-159 | `////x` and `:///x` give `x`, `/` gives the empty subpath, `::x` gives `:x` |
| `VnodeRefs.Bump` | kernel/fs/vfs/vfslookup.c:133 | VOP_INCREF: the count of v goes up by one and no other count changes |
| `VnodeRefs.Drop` | kernel/fs/vfs/vfslookup.c:56 | VOP_DECREF: the count of v goes down by one; v stays live exactly when it had more than one reference; no other count changes |
| `VnodeRefs.Acquire` | kernel/fs/vfs/vfslookup.c:113-116 | an accessor's result adds one reference to the vnode returned and none on an error |
| `VnodeRefs.DropIfSome` | kernel/fs/vfs/vfslookup.c:55-57 | an old anchor is released only when it is non-NULL |
| `VnodeRefs.TemporaryReferenceCancels` | kernel/fs/vfs/vfslookup.c:138-151 | taking the current directory, getting the root and releasing the directory nets exactly one reference, on the root |
| `VnodeRefs.TemporaryReferenceCancelsOnResult` | kernel/fs/vfs/vfslookup.c:223-225 | releasing the start vnode after VOP_LOOKUP leaves exactly the lookup's own reference, or none on error |
| `VfsLookup.Truncated` | kernel/fs/vfs/vfslookup.c:99 | getdevice changes the buffer only by turning a `:` into NUL, and a path that is not device-qualified is left alone; for a device path the buffer then holds the device name, the NUL, and the rest after the colon intact |
| `VfsLookup.CString` | kernel/fs/vfs/vfslookup.c:113 | the string a C routine reads from a buffer is the prefix before the first NUL: it holds no NUL and is followed by one unless it is the whole buffer |
| `VfsLookup.CStringEndsAtNul` | kernel/fs/vfs/vfslookup.c:99 | a NUL with none before it ends the C string there |
| `VfsLookup.TruncatedNamesDevice` | kernel/fs/vfs/vfslookup.c:99-113 | after the NUL over the colon, the buffer read as a C string is exactly the device name, which is what `vfs_getroot(path, …)` receives |
| `VfsLookup.ScanDelimiters` | kernel/fs/vfs/vfslookup.c:74-83 | at most one of colon and slash is set; a set one indexes the first delimiter, with that character; neither set means no delimiter in the path |
| `VfsLookup.SkipSlashRun` | kernel/fs/vfs/vfslookup.c:154-157 | the loop stops at the first non-`/` from its start, before the terminator, and agrees with `SkipSlashes` |
| `VfsLookup.BootfsPathAsWritten` | kernel/fs/vfs/vfslookup.c:179-188 | for a C string (no NUL inside), every name containing `:` is refused with EINVAL; any other name gets `:` appended |
| `VfsLookup.AsWrittenRefusesItsOwnOutput` | kernel/fs/vfs/vfslookup.c:182-185 | `emu0` becomes `emu0:` but `emu0:` is refused, against the comment at line 182 |
| `VfsLookup.BootfsPathIntended` | kernel/fs/vfs/vfslookup.c:182 | the corrected check refuses only with EINVAL; what it accepts is stated by `IntendedNormalises` |
| `VfsLookup.IntendedAcceptsItsOwnOutput` | kernel/fs/vfs/vfslookup.c:182 | under the intended check `emu0` and `emu0:` both become `emu0:` |
| `VfsLookup.IntendedNormalises` | kernel/fs/vfs/vfslookup.c:182 | the intended check accepts exactly bare names and names whose only colon is last; an accepted name comes back with `:` appended when it has none and unchanged otherwise; the output ends in its only colon and is accepted unchanged |
| `VfsLookup.Vfs.constructor` | kernel/fs/vfs/vfslookup.c:43 | the kernel starts with no anchor, no current directory and no references, and is Valid |
| `VfsLookup.Vfs.HeldIsCounted` | kernel/fs/vfs/vfslookup.c:43 | the references the anchor and the current directory hold are among those counted |
| `VfsLookup.Vfs.CurDir` | kernel/fs/vfs/vfslookup.c:94 | vfs_getcurdir succeeds exactly when there is a current directory, and yields it |
| `VfsLookup.Vfs.ChDirOutcome` | kernel/fs/vfs/vfslookup.c:193 | vfs_chdir succeeds only for a vnode that has a filesystem; the lookup's own error is passed on unchanged; a vnode without a filesystem is refused with ENOTDIR |
| `VfsLookup.Vfs.IncRef` | kernel/fs/vfs/vfslookup.c:133 | the counts become `Bump` of the old ones; the invariant is kept |
| `VfsLookup.Vfs.DecRef` | kernel/fs/vfs/vfslookup.c:151 | it releases a reference the caller owns; the counts become `Drop` of the old ones |
| `VfsLookup.Vfs.GetCurDir` | kernel/fs/vfs/vfslookup.c:138-141 | it returns `CurDir()`, with one more reference on success and none on error |
| `VfsLookup.Vfs.GetRoot` | kernel/fs/vfs/vfslookup.c:113-116 | it returns the device's root or its error, with one more reference on success only |
| `VfsLookup.Vfs.FsGetRoot` | kernel/fs/vfs/vfslookup.c:149 | it returns the filesystem's root with one more reference |
| `VfsLookup.Vfs.VopLookup` | kernel/fs/vfs/vfslookup.c:223 | it borrows a live directory and returns the lookup's result, with one more reference on success only |
| `VfsLookup.Vfs.ChDir` | kernel/fs/vfs/vfslookup.c:193-196 | on failure nothing changes; on success the new directory is current, gains a reference, and the old directory loses its own |
| `VfsLookup.Vfs.ChangeBootfs` | kernel/fs/vfs/vfslookup.c:48-58 | afterwards the anchor is newvn; the old anchor is released only if there was one; newvn stays live, and when it was already the anchor its count drops by one |
| `VfsLookup.Vfs.GetDevice` | kernel/fs/vfs/vfslookup.c:64-162 | it returns `Expected` of the path text: the error of `StartVnode`, or its vnode paired with `SubpathStart`; the buffer becomes `Truncated`; only the start vnode gains a reference (none on error); anchor and cwd are unchanged |
| `VfsLookup.Vfs.DeviceRootStart` | kernel/fs/vfs/vfslookup.c:97-119 | a device path writes NUL at its colon and starts at `vfs_getroot` of the C string the buffer then holds, the device name; the subpath skips the slashes after the colon; an error from `vfs_getroot` is passed on |
| `VfsLookup.Vfs.RoleRelativeStart` | kernel/fs/vfs/vfslookup.c:127-161 | `/` without an anchor gives ENOENT with no count change; with one, the anchor gains one reference; `:` nets one reference on the fs root and none on the current directory |
| `VfsLookup.Vfs.Lookup` | kernel/fs/vfs/vfslookup.c:208-227 | it returns `Resolve` of the path: an empty subpath returns the start vnode, otherwise VOP_LOOKUP's result unchanged; net, exactly one reference on the result and none on error |
| `VfsLookup.Vfs.SetBootfs` | kernel/fs/vfs/vfslookup.c:172-206 | a name with a colon gives EINVAL; a failing chdir passes its error on; on every error the anchor is unchanged; on success the anchor and cwd are both the new directory, with the exact count changes |
| `VfsLookup.Vfs.LookupTwice` | kernel/fs/vfs/vfslookup.c:208-227 | two lookups of the same path, on two copies of it, find the same vnode |
| `VfsLookup.Vfs.DeviceSlashesResolveAlike` | kernel/fs/vfs/vfslookup.c:97-119 | `dev:///x` resolves like `dev:x`, and the start is the device's root |
| `VfsLookup.Vfs.BootRelativeResolution` | kernel/fs/vfs/vfslookup.c:129-134 | a `/` path fails with ENOENT without an anchor; otherwise it resolves against the anchor, with the extra slashes ignored |
| `VfsLookup.Vfs.CurFsRelativeResolution` | kernel/fs/vfs/vfslookup.c:135-152 | a `:` path fails with ENOENT without a current directory; otherwise it starts at the root of that directory's filesystem |
| `VfsLookup.SubpathInBuffer` | kernel/fs/vfs/vfslookup.c:218-223 | after getdevice the buffer holds the subpath from its returned index, and `kernel_strlen` is 0 exactly when the subpath is empty |

## Left out

- `kernel/init.c` is not part of this model. It is boot sequencing with no behaviour of this layer.
- The `VFS_DEBUG` printing blocks (lines 105-112 and 189-191) only produce output.
- The internals of `vfs_getcurdir`, `vfs_getroot`, `FSOP_GETROOT`, `VOP_LOOKUP` and `vfs_chdir` are not part of this model. `vfs_getroot`, `FSOP_GETROOT`, `VOP_LOOKUP` and `vfs_chdir` read tables fixed at construction, and `vfs_getcurdir` yields the field `cwd`, so their results depend only on their arguments and on the current directory. For `vfs_chdir` this is exact only for paths of the form `name:`: `vfs_setbootfs` can also pass `:` (from the empty name) or `a/b:` (from `a/b`). Those paths would resolve from the current directory or from the anchor, and the fixed `chdirTarget` ignores both.
- When there is no current directory, the modelled `vfs_getcurdir` returns ENOENT. The modelled `vfs_chdir` refuses a vnode without a filesystem with ENOTDIR. Both are choices of the model; the lookup layer passes either error on unchanged.
- The assertions at lines 127, 136 and 147 are proved to hold rather than modelled as kernel aborts. Line 147 depends on the invariant that the current directory has a filesystem.
- `kernel_strdup`'s buffer is not modelled: the name is a value. Also not modelled: whether the copy has room for the `:` that `kernel_strcat` appends, and the fact that the copy is never freed.
- Locking of `bootfs_vnode` and of the counts is not modelled, because the code has none; execution is single-threaded.
- The C `int` index of the scan is unbounded here, so paths longer than `INT_MAX` are not considered.
- The out-parameters that getdevice writes before failing (`*subpath` at lines 93 and 104) are not modelled, because no caller reads them after an error.
- Vfs.VopLookup is given a copy of the subpath, while the C passes `VOP_LOOKUP` a pointer into the caller's buffer (line 223). The model assumes `VOP_LOOKUP` does not write the path buffer; `Lookup`'s promise about the buffer's final contents rests on that.
- Vfs.SetBootfs and the name checks require a name without NUL, as every C string is; a sequence with an embedded NUL stands for no input the kernel can receive.
- Vfs.LookupTwice requires two distinct buffers. On a single buffer the first lookup truncates a device path at its colon. A second lookup would then see only the device name, which resolves as a relative path.

## Findings

| source | as written | input that shows it | evidently intended | confidence | as-written member | corrected member |
|---|---|---|---|---|---|---|
| kernel/fs/vfs/vfslookup.c:183 | `kernel_strlen(s) > 0` measures the string from the colon itself, which is never empty, so every name with a colon is refused | `emu0:` is refused with EINVAL, although `emu0` is normalised to that very name | refuse only text after the colon (`kernel_strlen(s + 1) > 0`), as the comment at line 182 says | high; not executed | `VfsLookup.AsWrittenRefusesItsOwnOutput` (about `VfsLookup.BootfsPathAsWritten`) | `VfsLookup.IntendedNormalises` and `VfsLookup.IntendedAcceptsItsOwnOutput` (about `VfsLookup.BootfsPathIntended`) |

`Vfs.SetBootfs` keeps the as-written check, because that is how the kernel behaves.
