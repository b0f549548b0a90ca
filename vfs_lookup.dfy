/**
 * Pathname translation in the VFS: getdevice strips the device or role
 * prefix off a path and picks the vnode to start from, vfs_lookup hands the
 * rest to the filesystem's own lookup, and vfs_setbootfs binds the boot
 * filesystem anchor that paths starting with '/' are resolved against.
 *
 * The kernel state is a Vfs object: the reference counts of the live vnodes,
 * the anchor bootfs_vnode and the current directory.  Of the routines that
 * vfslookup.c calls but does not define, vfs_getroot, FSOP_GETROOT and
 * VOP_LOOKUP read the tables deviceRoot, fsRoot and lookupIn, and vfs_chdir
 * reads chdirTarget, all fixed when the object is built; vfs_getcurdir yields
 * the current directory cwd; fsOf stands for a vnode's vn_fs.  The four
 * accessors hand out an owned reference (count + 1) on success and change no
 * count on failure; vfs_chdir moves the current directory's reference from
 * the old directory to the new one.
 */
module VfsLookup {
  import opened Wrappers
  import opened VnodeRefs
  import opened PathSyntax

  /** The kernel error codes this layer produces or passes on. */
  datatype Errno = ENOENT | EINVAL | ENOTDIR | Other(code: nat)

  type FsId = nat

  /** What getdevice hands back: where the subpath begins in the buffer, and the owned start vnode. */
  datatype Start = Start(sub: nat, vn: VnodeId)

  /** A NUL-terminated path buffer with no NUL before its terminator. */
  predicate IsCString(a: array<char>)
    reads a
  {
    a.Length > 0 && a[a.Length - 1] == NUL && forall k :: 0 <= k < a.Length - 1 ==> a[k] != NUL
  }

  /** The characters of a buffer before its final NUL. */
  function Text(a: array<char>): seq<char>
    reads a
    requires a.Length > 0
  {
    a[..a.Length - 1]
  }

  /** The buffer as getdevice leaves it: the colon of a device-qualified path overwritten by NUL. */
  function Truncated(b: seq<char>): (b': seq<char>)
    requires |b| > 0
    ensures |b'| == |b|
    ensures forall k :: 0 <= k < |b| && b'[k] != b[k] ==> b[k] == ':' && b'[k] == NUL
    ensures !Classify(b[..|b| - 1]).Device? ==> b' == b
    ensures Classify(b[..|b| - 1]).Device? ==>
      var c := Classify(b[..|b| - 1]).colon;
      b'[..c] == DeviceName(b[..|b| - 1]) && b'[c] == NUL && b'[c + 1..] == b[c + 1..]
  {
    match Classify(b[..|b| - 1])
    case Device(c) => b[c := NUL]
    case _ => b
  }

  /** The C string a buffer holds from its start: the characters before its first NUL. */
  function CString(b: seq<char>): (r: seq<char>)
    ensures |r| <= |b| && r == b[..|r|] && NUL !in r
    ensures |r| < |b| ==> b[|r|] == NUL
  {
    match IndexOf(b, NUL)
    case Some(k) => b[..k]
    case None => b
  }

  /** A NUL with none before it ends the C string. */
  lemma CStringEndsAtNul(b: seq<char>, c: nat)
    requires c < |b| && b[c] == NUL && NUL !in b[..c]
    ensures CString(b) == b[..c]
  {
    assert IndexOf(b, NUL) == Some(c);
  }

  /**
   * The NUL that getdevice writes over the colon makes the buffer, read as a
   * C string, the device name alone: that is the string vfs_getroot gets.
   */
  lemma TruncatedNamesDevice(b: seq<char>)
    requires |b| > 0 && NUL !in b[..|b| - 1] && Classify(b[..|b| - 1]).Device?
    ensures CString(Truncated(b)) == DeviceName(b[..|b| - 1])
  {
    var c := Classify(b[..|b| - 1]).colon;
    assert Truncated(b)[..c] == b[..c];
    CStringEndsAtNul(Truncated(b), c);
  }

  /**
   * The scan at the head of getdevice: find the first ':' or '/' before the
   * terminating NUL, and record it in colon or in slash (-1 when not found).
   */
  method ScanDelimiters(path: array<char>) returns (colon: int, slash: int)
    requires IsCString(path)
    ensures colon < 0 || slash < 0
    ensures -1 <= colon && -1 <= slash
    ensures colon >= 0 ==> colon < path.Length - 1 && path[colon] == ':' && DelimFree(Text(path), colon)
    ensures slash >= 0 ==> slash < path.Length - 1 && path[slash] == '/' && DelimFree(Text(path), slash)
    ensures colon < 0 && slash < 0 ==> DelimFree(Text(path), path.Length - 1)
  {
    colon, slash := -1, -1;
    var i := 0;
    while path[i] != NUL
      invariant 0 <= i < path.Length
      decreases path.Length - i
      invariant colon == -1 && slash == -1
      invariant forall k :: 0 <= k < i ==> !IsDelim(path[k])
    {
      if path[i] == ':' {
        colon := i;
        break;
      }
      if path[i] == '/' {
        slash := i;
        break;
      }
      i := i + 1;
    }
  }

  /**
   * The loops of getdevice that step over the '/' characters following a
   * colon or a leading separator; from is the first index examined.
   */
  method SkipSlashRun(path: array<char>, from: nat) returns (j: nat)
    requires from < path.Length && path[path.Length - 1] == NUL
    ensures from <= j < path.Length && path[j] != '/'
    ensures forall k :: from <= k < j ==> path[k] == '/'
    ensures j == SkipSlashes(Text(path), from)
  {
    j := from;
    while path[j] == '/'
      invariant from <= j < path.Length
      invariant forall k :: from <= k < j ==> path[k] == '/'
      decreases path.Length - j
    {
      j := j + 1;
    }
  }

  /**
   * The name check of vfs_setbootfs as the code has it: the length of the
   * string starting AT the first colon is taken, which is never zero, so
   * every name that holds a colon is refused; a name without one gets ':'
   * appended.
   */
  function BootfsPathAsWritten(name: seq<char>): (r: Result<seq<char>, Errno>)
    requires NUL !in name
    ensures r.Err? <==> ':' in name
    ensures r.Err? ==> r.error == EINVAL
    ensures r.Ok? ==> |r.value| == |name| + 1 && r.value[..|name|] == name && r.value[|name|] == ':'
  {
    match IndexOf(name, ':')
    case Some(c) => if |name[c..]| > 0 then Err(EINVAL) else Ok(name)
    case None => Ok(name + [':'])
  }

  /**
   * The name check the comment of vfs_setbootfs describes: a colon is
   * allowed, but only as the last character.
   */
  function BootfsPathIntended(name: seq<char>): (r: Result<seq<char>, Errno>)
    requires NUL !in name
    ensures r.Err? ==> r.error == EINVAL
  {
    match IndexOf(name, ':')
    case Some(c) => if |name[c + 1..]| > 0 then Err(EINVAL) else Ok(name)
    case None => Ok(name + [':'])
  }

  /**
   * The code as written refuses the very name it builds: "emu0" becomes
   * "emu0:", and "emu0:" itself is refused with EINVAL.
   */
  lemma AsWrittenRefusesItsOwnOutput()
    ensures BootfsPathAsWritten("emu0") == Ok("emu0:")
    ensures BootfsPathAsWritten("emu0:") == Err(EINVAL)
  {
    assert ':' !in "emu0" by {
      forall k | 0 <= k < 4 ensures "emu0"[k] != ':' { }
    }
    assert "emu0" + [':'] == "emu0:";
    assert "emu0:"[4] == ':';
  }

  /** The intended check maps "emu0" and "emu0:" alike to "emu0:". */
  lemma IntendedAcceptsItsOwnOutput()
    ensures BootfsPathIntended("emu0") == BootfsPathIntended("emu0:") == Ok("emu0:")
  {
    assert ':' !in "emu0" by {
      forall k | 0 <= k < 4 ensures "emu0"[k] != ':' { }
    }
    assert "emu0" + [':'] == "emu0:";
    assert IndexOf("emu0:", ':') == Some(4);
  }

  /**
   * The intended check accepts exactly the bare names and the names with a
   * single trailing colon, returns an accepted name with ':' appended when it
   * has none and unchanged otherwise, always yields a name ending in its only
   * colon, and accepts its own output unchanged.
   */
  lemma {:induction false} IntendedNormalises(name: seq<char>)
    requires NUL !in name
    ensures BootfsPathIntended(name).Ok? <==>
      ':' !in name || (':' !in name[..|name| - 1] && name[|name| - 1] == ':')
    ensures BootfsPathIntended(name).Ok? ==>
      BootfsPathIntended(name).value == (if ':' in name then name else name + [':'])
    ensures BootfsPathIntended(name).Ok? ==>
      var p := BootfsPathIntended(name).value;
      |p| > 0 && p[|p| - 1] == ':' && ':' !in p[..|p| - 1] && BootfsPathIntended(p) == Ok(p)
  {
    match IndexOf(name, ':')
    case None =>
      var p := name + [':'];
      assert p[..|p| - 1] == name;
      assert IndexOf(p, ':') == Some(|name|);
    case Some(c) =>
      if c == |name| - 1 {
        assert name[..|name| - 1] == name[..c];
      } else {
        assert name[c] in name[..|name| - 1];
      }
  }

  class Vfs {
    /** The reference counts of the live vnodes. */
    var refs: RefMap
    /** bootfs_vnode: the anchor of paths that start with '/', holding one reference. */
    var bootfs: Option<VnodeId>
    /** The current directory, holding one reference; kept by vfs_chdir and vfs_getcurdir. */
    var cwd: Option<VnodeId>

    /** vfs_getroot: the root vnode of a named device, or its error. */
    const deviceRoot: seq<char> -> Result<VnodeId, Errno>
    /** vn_fs: the filesystem of a vnode; a bare device has none. */
    const fsOf: map<VnodeId, FsId>
    /** FSOP_GETROOT: the root vnode of a filesystem. */
    const fsRoot: FsId -> VnodeId
    /** VOP_LOOKUP: what a directory's filesystem finds for a subpath, or its error. */
    const lookupIn: (VnodeId, seq<char>) -> Result<VnodeId, Errno>
    /** The vnode vfs_chdir looks up for a path, or its error. */
    const chdirTarget: seq<char> -> Result<VnodeId, Errno>

    /** How many references to v the anchor and the current directory hold. */
    function Held(v: VnodeId): nat
      reads this
    {
      (if bootfs == Some(v) then 1 else 0) + (if cwd == Some(v) then 1 else 0)
    }

    /**
     * The anchor and the current directory each own a reference to their
     * vnode, and the current directory is never a bare device.
     */
    ghost predicate Valid()
      reads this
    {
      && (bootfs.Some? ==> Count(refs, bootfs.value) >= Held(bootfs.value))
      && (cwd.Some? ==> Count(refs, cwd.value) >= Held(cwd.value))
      && CwdHasFs()
    }

    /** The current directory, if any, belongs to a filesystem. */
    ghost predicate CwdHasFs()
      reads this`cwd
    {
      cwd.Some? ==> cwd.value in fsOf
    }

    /** The references the anchor and the current directory hold are among those counted. */
    lemma HeldIsCounted(v: VnodeId)
      requires Valid()
      ensures Count(refs, v) >= Held(v)
    {
    }

    /** The kernel at start: no vnode referenced, no anchor, no current directory. */
    constructor (deviceRoot: seq<char> -> Result<VnodeId, Errno>, fsOf: map<VnodeId, FsId>,
                 fsRoot: FsId -> VnodeId, lookupIn: (VnodeId, seq<char>) -> Result<VnodeId, Errno>,
                 chdirTarget: seq<char> -> Result<VnodeId, Errno>)
      ensures Valid()
      ensures refs == map[] && bootfs == None && cwd == None
      ensures this.deviceRoot == deviceRoot && this.fsOf == fsOf && this.fsRoot == fsRoot
      ensures this.lookupIn == lookupIn && this.chdirTarget == chdirTarget
    {
      this.deviceRoot, this.fsOf, this.fsRoot := deviceRoot, fsOf, fsRoot;
      this.lookupIn, this.chdirTarget := lookupIn, chdirTarget;
      refs, bootfs, cwd := map[], None, None;
    }

    /** What vfs_getcurdir yields: the current directory, or ENOENT when there is none. */
    function CurDir(): (r: Result<VnodeId, Errno>)
      reads this`cwd
      ensures r.Ok? <==> cwd.Some?
      ensures r.Ok? ==> Some(r.value) == cwd
    {
      if cwd.Some? then Ok(cwd.value) else Err(ENOENT)
    }

    /** What vfs_chdir makes current for path p; it refuses a vnode that has no filesystem. */
    function ChDirOutcome(p: seq<char>): (r: Result<VnodeId, Errno>)
      ensures r.Ok? ==> r.value in fsOf && chdirTarget(p) == r
      ensures chdirTarget(p).Err? ==> r == chdirTarget(p)
      ensures r.Err? ==> chdirTarget(p).Err? || (chdirTarget(p).value !in fsOf && r.error == ENOTDIR)
    {
      match chdirTarget(p)
      case Err(e) => Err(e)
      case Ok(v) => if v in fsOf then Ok(v) else Err(ENOTDIR)
    }

    /** The vnode getdevice starts path text s from, or the error it returns. */
    ghost function StartVnode(s: seq<char>): Result<VnodeId, Errno>
      reads this`bootfs, this`cwd
      requires CwdHasFs()
    {
      match Classify(s)
      case Relative => CurDir()
      case Device(c) => deviceRoot(s[..c])
      case BootRelative => if bootfs.Some? then Ok(bootfs.value) else Err(ENOENT)
      case CurFsRelative =>
        match CurDir()
        case Err(e) => Err(e)
        case Ok(d) => Ok(fsRoot(fsOf[d]))
    }

    /** The vnode vfs_lookup finds for path text s, or the error it returns. */
    ghost function Resolve(s: seq<char>): Result<VnodeId, Errno>
      reads this`bootfs, this`cwd
      requires CwdHasFs()
    {
      match StartVnode(s)
      case Err(e) => Err(e)
      case Ok(v) => if Subpath(s) == [] then Ok(v) else lookupIn(v, Subpath(s))
    }

    /** VOP_INCREF. */
    method IncRef(v: VnodeId)
      requires Valid()
      modifies this`refs
      ensures Valid()
      ensures refs == Bump(old(refs), v)
    {
      refs := Bump(refs, v);
    }

    /** VOP_DECREF of a reference the caller owns (not the one the anchor or the current directory holds). */
    method DecRef(v: VnodeId)
      requires Valid() && Count(refs, v) > Held(v)
      modifies this`refs
      ensures Valid()
      ensures refs == Drop(old(refs), v)
    {
      refs := Drop(refs, v);
    }

    /** vfs_getcurdir: an owned reference to the current directory. */
    method GetCurDir() returns (r: Result<VnodeId, Errno>)
      requires Valid()
      modifies this`refs
      ensures Valid()
      ensures r == old(CurDir())
      ensures refs == Acquire(old(refs), r)
    {
      r := CurDir();
      if r.Ok? {
        IncRef(r.value);
      }
    }

    /** vfs_getroot: an owned reference to the root of the named device. */
    method GetRoot(name: seq<char>) returns (r: Result<VnodeId, Errno>)
      requires Valid()
      modifies this`refs
      ensures Valid()
      ensures r == deviceRoot(name)
      ensures refs == Acquire(old(refs), r)
    {
      r := deviceRoot(name);
      if r.Ok? {
        IncRef(r.value);
      }
    }

    /** FSOP_GETROOT: an owned reference to the root of a filesystem. */
    method FsGetRoot(fs: FsId) returns (v: VnodeId)
      requires Valid()
      modifies this`refs
      ensures Valid()
      ensures v == fsRoot(fs)
      ensures refs == Bump(old(refs), v)
    {
      v := fsRoot(fs);
      IncRef(v);
    }

    /** VOP_LOOKUP: borrows the live directory dir and returns an owned reference to what it finds. */
    method VopLookup(dir: VnodeId, sub: seq<char>) returns (r: Result<VnodeId, Errno>)
      requires Valid() && Count(refs, dir) > 0
      modifies this`refs
      ensures Valid()
      ensures r == lookupIn(dir, sub)
      ensures refs == Acquire(old(refs), r)
    {
      r := lookupIn(dir, sub);
      if r.Ok? {
        IncRef(r.value);
      }
    }

    /**
     * vfs_chdir: makes the vnode found for p the current directory, which
     * takes a reference to it and gives up the one to the old directory.
     */
    method ChDir(p: seq<char>) returns (r: Result<(), Errno>)
      requires Valid()
      modifies this`refs, this`cwd
      ensures Valid() && bootfs == old(bootfs)
      ensures ChDirOutcome(p).Err? ==>
        r == Err(ChDirOutcome(p).error) && refs == old(refs) && cwd == old(cwd)
      ensures ChDirOutcome(p).Ok? ==>
        r == Ok(()) && cwd == Some(ChDirOutcome(p).value) &&
        refs == DropIfSome(Bump(old(refs), ChDirOutcome(p).value), old(cwd))
    {
      var target := ChDirOutcome(p);
      if target.Err? {
        return Err(target.error);
      }
      IncRef(target.value);
      var previous := cwd;
      cwd := Some(target.value);
      if previous.Some? {
        DecRef(previous.value);
      }
      r := Ok(());
    }

    /**
     * change_bootfs: installs newvn (an owned reference the caller hands
     * over) as the anchor first, and only then releases the old anchor, so
     * that newvn stays live when it is the old anchor too.
     */
    method ChangeBootfs(newvn: VnodeId)
      requires Valid() && Count(refs, newvn) > Held(newvn)
      modifies this`refs, this`bootfs
      ensures Valid()
      ensures bootfs == Some(newvn) && cwd == old(cwd)
      ensures refs == DropIfSome(old(refs), old(bootfs))
      ensures newvn in refs
      ensures old(bootfs) == Some(newvn) ==> Count(refs, newvn) == old(Count(refs, newvn)) - 1
    {
      var oldvn := bootfs;
      bootfs := Some(newvn);
      if oldvn.Some? {
        DecRef(oldvn.value);
      }
    }

    /** What getdevice returns for path text s: the start of the subpath and the start vnode, or the error. */
    ghost function Expected(s: seq<char>): Result<Start, Errno>
      reads this`bootfs, this`cwd
      requires CwdHasFs()
    {
      match StartVnode(s)
      case Err(e) => Err(e)
      case Ok(v) => Ok(Start(SubpathStart(s), v))
    }

    /**
     * getdevice: classifies the path in the buffer, truncates it at the colon
     * of a device-qualified path, and returns where the subpath begins with an
     * owned reference to the vnode to start from.  On an error no reference
     * is held.
     */
    method GetDevice(path: array<char>) returns (r: Result<Start, Errno>)
      requires Valid() && IsCString(path)
      modifies this`refs, path
      ensures Valid() && bootfs == old(bootfs) && cwd == old(cwd)
      ensures path[..] == Truncated(old(path[..]))
      ensures r == old(Expected(Text(path)))
      ensures refs == Acquire(old(refs), old(StartVnode(Text(path))))
    {
      var colon, slash := ScanDelimiters(path);
      ghost var s := Text(path);
      assert path[..][..path.Length - 1] == s;

      if colon < 0 && slash != 0 {
        // No device name, and no leading slash: relative to the current directory.
        if slash > 0 {
          ClassifyByFirstDelimiter(s, slash);
        } else {
          ClassifyWithoutDelimiter(s);
        }
        var cur := GetCurDir();
        match cur
        case Err(e) =>
          return Err(e);
        case Ok(v) =>
          return Ok(Start(0, v));
      }

      if colon > 0 {
        ClassifyByFirstDelimiter(s, colon);
        r := DeviceRootStart(path, colon);
        return;
      }

      assert colon == 0 || slash == 0;
      r := RoleRelativeStart(path);
    }

    /** The device branch of getdevice: "name:sub" starts from the root of device name. */
    method DeviceRootStart(path: array<char>, colon: nat) returns (r: Result<Start, Errno>)
      requires Valid() && IsCString(path) && Classify(Text(path)) == Device(colon)
      modifies this`refs, path
      ensures Valid() && bootfs == old(bootfs) && cwd == old(cwd)
      ensures path[..] == old(path[..])[colon := NUL]
      ensures r == old(Expected(Text(path)))
      ensures refs == Acquire(old(refs), old(StartVnode(Text(path))))
    {
      ghost var s := Text(path);
      assert StartVnode(s) == deviceRoot(s[..colon]);
      assert SubpathStart(s) == SkipSlashes(s, colon + 1);
      path[colon] := NUL;
      assert Text(path)[colon + 1..] == s[colon + 1..];
      var sub := SkipSlashRun(path, colon + 1);
      SkipSlashesFromSuffix(Text(path), s, colon + 1);
      // vfs_getroot reads the buffer up to the NUL just written.
      assert path[..][..colon] == s[..colon];
      CStringEndsAtNul(path[..], colon);
      var root := GetRoot(CString(path[..]));
      match root
      case Err(e) =>
        return Err(e);
      case Ok(v) =>
        return Ok(Start(sub, v));
    }

    /**
     * The role-relative branches of getdevice: "/sub" starts from the anchor,
     * ":sub" from the root of the current directory's filesystem, taking and
     * releasing a temporary reference to the current directory on the way.
     */
    method RoleRelativeStart(path: array<char>) returns (r: Result<Start, Errno>)
      requires Valid() && IsCString(path)
      requires Classify(Text(path)) == BootRelative || Classify(Text(path)) == CurFsRelative
      modifies this`refs
      ensures Valid() && bootfs == old(bootfs) && cwd == old(cwd)
      ensures r == old(Expected(Text(path)))
      ensures refs == Acquire(old(refs), old(StartVnode(Text(path))))
    {
      var start: VnodeId;
      if path[0] == '/' {
        if bootfs.None? {
          return Err(ENOENT);
        }
        IncRef(bootfs.value);
        start := bootfs.value;
      } else {
        assert path[0] == ':';
        var cur := GetCurDir();
        match cur
        case Err(e) =>
          return Err(e);
        case Ok(d) =>
          // The current directory is never a bare device, so it has a filesystem.
          assert d in fsOf;
          start := FsGetRoot(fsOf[d]);
          TemporaryReferenceCancels(old(refs), d, start);
          DecRef(d);
      }
      var sub := SkipSlashRun(path, 1);
      r := Ok(Start(sub, start));
    }

    /**
     * vfs_lookup: strips the prefix with getdevice; an empty subpath returns
     * the start vnode itself, otherwise the filesystem's lookup runs on the
     * subpath and the start vnode is released whatever it returns.  Either an
     * owned reference to the result comes back or an error with every count
     * as it was.
     */
    method Lookup(path: array<char>) returns (r: Result<VnodeId, Errno>)
      requires Valid() && IsCString(path)
      modifies this`refs, path
      ensures Valid() && bootfs == old(bootfs) && cwd == old(cwd)
      ensures path[..] == Truncated(old(path[..]))
      ensures r == old(Resolve(Text(path)))
      ensures refs == Acquire(old(refs), r)
    {
      ghost var s, m0 := Text(path), refs;
      ghost var expected, sv := Resolve(s), StartVnode(s);
      var dev := GetDevice(path);
      match dev
      case Err(e) =>
        return Err(e);
      case Ok(st) =>
        var start, sub := st.vn, st.sub;
        assert sv == Ok(start) && sub == SubpathStart(s);
        SubpathInBuffer(old(path[..]), path[..], sub);
        if path[sub] == NUL {
          // kernel_strlen(subpath) == 0: the start vnode is the answer.
          assert expected == Ok(start);
          return Ok(start);
        }
        assert expected == lookupIn(start, Subpath(s));
        ghost var m1 := refs;
        r := VopLookup(start, path[sub..path.Length - 1]);
        TemporaryReferenceCancelsOnResult(m0, start, r);
        HeldIsCounted(start);
        assert Count(refs, start) >= Count(m1, start) > Held(start);
        DecRef(start);
    }

    /**
     * vfs_setbootfs: normalises the name, makes it the current directory, and
     * installs the new current directory as the anchor.  On any error the
     * anchor is left as it was.
     */
    method SetBootfs(fsname: seq<char>) returns (r: Result<(), Errno>)
      requires Valid() && NUL !in fsname
      modifies this`refs, this`bootfs, this`cwd
      ensures Valid()
      ensures r.Err? ==> bootfs == old(bootfs)
      ensures BootfsPathAsWritten(fsname).Err? ==>
        r == Err(EINVAL) && refs == old(refs) && cwd == old(cwd)
      ensures BootfsPathAsWritten(fsname).Ok? && ChDirOutcome(BootfsPathAsWritten(fsname).value).Err? ==>
        r == Err(ChDirOutcome(BootfsPathAsWritten(fsname).value).error) &&
        refs == old(refs) && cwd == old(cwd)
      ensures BootfsPathAsWritten(fsname).Ok? && ChDirOutcome(BootfsPathAsWritten(fsname).value).Ok? ==>
        var v := ChDirOutcome(BootfsPathAsWritten(fsname).value).value;
        && r == Ok(())
        && bootfs == Some(v) && cwd == Some(v)
        && refs == DropIfSome(Bump(DropIfSome(Bump(old(refs), v), old(cwd)), v), old(bootfs))
    {
      var tmp := fsname;
      var colon := IndexOf(tmp, ':');
      if colon.Some? {
        // The length measured starts at the colon itself.
        if |tmp[colon.value..]| > 0 {
          return Err(EINVAL);
        }
      } else {
        tmp := tmp + [':'];
      }
      assert tmp == BootfsPathAsWritten(fsname).value;

      r := ChDir(tmp);
      if r.Err? {
        return r;
      }

      var newguy := GetCurDir();
      match newguy
      case Err(e) =>
        return Err(e);
      case Ok(v) =>
        ChangeBootfs(v);
        r := Ok(());
    }

    /**
     * Resolving the same path twice, from two copies of it, finds the same
     * vnode: lookup leaves the anchor and the current directory alone.
     */
    method LookupTwice(p1: array<char>, p2: array<char>) returns (r1: Result<VnodeId, Errno>, r2: Result<VnodeId, Errno>)
      requires Valid() && IsCString(p1) && IsCString(p2) && p1 != p2 && p1[..] == p2[..]
      modifies this`refs, p1, p2
      ensures Valid()
      ensures r1 == r2 == old(Resolve(Text(p1)))
    {
      r1 := Lookup(p1);
      r2 := Lookup(p2);
    }

    /** A path to a device resolves alike however many slashes follow its colon. */
    lemma DeviceSlashesResolveAlike(name: seq<char>, n: nat, rest: seq<char>)
      requires Valid()
      requires |name| > 0 && DelimFree(name, |name|)
      requires rest == [] || rest[0] != '/'
      ensures Resolve(name + [':'] + Slashes(n) + rest) == Resolve(name + [':'] + rest)
      ensures StartVnode(name + [':'] + rest) == deviceRoot(name)
    {
      var s1, s2 := name + [':'] + Slashes(n) + rest, name + [':'] + rest;
      DeviceForm(name, n, rest);
      DeviceForm(name, 0, rest);
      assert s2 == name + [':'] + Slashes(0) + rest;
      assert s1[..|name|] == name && s2[..|name|] == name;
      assert StartVnode(s1) == deviceRoot(name) == StartVnode(s2);
    }

    /**
     * A path with a leading '/' resolves against the anchor, and fails with
     * ENOENT while there is none; the slashes after the first are ignored.
     */
    lemma BootRelativeResolution(n: nat, rest: seq<char>)
      requires Valid()
      requires rest == [] || rest[0] != '/'
      ensures bootfs.None? ==> Resolve(['/'] + Slashes(n) + rest) == Err(ENOENT)
      ensures bootfs.Some? && rest == [] ==> Resolve(['/'] + Slashes(n) + rest) == Ok(bootfs.value)
      ensures bootfs.Some? && rest != [] ==> Resolve(['/'] + Slashes(n) + rest) == lookupIn(bootfs.value, rest)
    {
      RoleForm('/', n, rest);
    }

    /**
     * A path with a leading ':' resolves against the root of the current
     * directory's filesystem.
     */
    lemma CurFsRelativeResolution(n: nat, rest: seq<char>)
      requires Valid()
      requires rest == [] || rest[0] != '/'
      ensures cwd.None? ==> Resolve([':'] + Slashes(n) + rest) == Err(ENOENT)
      ensures cwd.Some? ==> StartVnode([':'] + Slashes(n) + rest) == Ok(fsRoot(fsOf[cwd.value]))
    {
      RoleForm(':', n, rest);
    }
  }

  /** The slash run after index i depends only on the characters from i on. */
  lemma SkipSlashesFromSuffix(s1: seq<char>, s2: seq<char>, i: nat)
    requires |s1| == |s2| && i <= |s1| && s1[i..] == s2[i..]
    ensures SkipSlashes(s1, i) == SkipSlashes(s2, i)
  {
    var j1, j2 := SkipSlashes(s1, i), SkipSlashes(s2, i);
    forall k | i <= k < |s1| ensures s1[k] == s2[k] {
      assert s1[k] == s1[i..][k - i];
    }
  }

  /**
   * After getdevice, the subpath the buffer holds from index sub on is the
   * subpath of the original text, and it is empty exactly when the buffer
   * holds NUL at sub.
   */
  lemma SubpathInBuffer(before: seq<char>, after: seq<char>, sub: nat)
    requires |before| > 0 && before[|before| - 1] == NUL
    requires forall k :: 0 <= k < |before| - 1 ==> before[k] != NUL
    requires after == Truncated(before)
    requires sub == SubpathStart(before[..|before| - 1])
    ensures sub < |after|
    ensures after[sub..|after| - 1] == Subpath(before[..|before| - 1])
    ensures after[sub] == NUL <==> Subpath(before[..|before| - 1]) == []
  {
    var s := before[..|before| - 1];
    assert after[sub..|after| - 1] == s[sub..];
  }
}
