/**
 * The path syntax the lookup layer recognises, as pure functions of the path
 * text (the characters before the terminating NUL):
 *
 *   name:sub   device-qualified (the colon is not the first character)
 *   /sub       relative to the root of the boot filesystem
 *   :sub       relative to the root of the current directory's filesystem
 *   sub        relative to the current directory
 *
 * Only the first ':' or '/' of the path decides the form.
 */
module PathSyntax {
  import opened Wrappers

  const NUL: char := '\0'

  predicate IsDelim(c: char)
  {
    c == ':' || c == '/'
  }

  /** Neither ':' nor '/' occurs among the first n characters of s. */
  predicate DelimFree(s: seq<char>, n: nat)
    requires n <= |s|
  {
    forall k :: 0 <= k < n ==> !IsDelim(s[k])
  }

  /** The index of the first ':' or '/' in s, if there is one. */
  function FirstDelim(s: seq<char>): (r: Option<nat>)
    ensures r.None? ==> DelimFree(s, |s|)
    ensures r.Some? ==> r.value < |s| && IsDelim(s[r.value]) && DelimFree(s, r.value)
  {
    if s == [] then None
    else if IsDelim(s[0]) then Some(0)
    else match FirstDelim(s[1..])
      case None => None
      case Some(k) => Some(k + 1)
  }

  datatype Prefix =
    | Relative            // no device prefix: start from the current directory
    | Device(colon: nat)  // "name:sub": start from the root of device name
    | BootRelative        // "/sub": start from the boot filesystem anchor
    | CurFsRelative       // ":sub": start from the root of the current filesystem

  /** The form of a path, decided by its first ':' or '/'. */
  function Classify(s: seq<char>): (p: Prefix)
    ensures p.Device? ==> 0 < p.colon < |s| && s[p.colon] == ':' && DelimFree(s, p.colon)
    ensures p == BootRelative <==> |s| > 0 && s[0] == '/'
    ensures p == CurFsRelative <==> |s| > 0 && s[0] == ':'
  {
    match FirstDelim(s)
    case None => Relative
    case Some(k) =>
      if k == 0 then (if s[0] == '/' then BootRelative else CurFsRelative)
      else if s[k] == ':' then Device(k)
      else Relative
  }

  /**
   * Each form in terms of the first delimiter: device-qualified exactly when
   * a ':' at a position above 0 comes before any '/', relative exactly when
   * there is no delimiter or the first one is a '/' at a position above 0.
   */
  lemma ClassifyByFirstDelimiter(s: seq<char>, i: nat)
    requires i < |s| && IsDelim(s[i]) && DelimFree(s, i)
    ensures Classify(s) == (if i == 0 then (if s[0] == '/' then BootRelative else CurFsRelative)
                            else if s[i] == ':' then Device(i) else Relative)
  {
    var d := FirstDelim(s);
    assert d == Some(i);
  }

  /** Without any ':' or '/', a path is relative and is handed on whole. */
  lemma ClassifyWithoutDelimiter(s: seq<char>)
    requires DelimFree(s, |s|)
    ensures Classify(s) == Relative && Subpath(s) == s
  {
    assert FirstDelim(s) == None;
  }

  /** The first index at or after i that does not hold a '/'. */
  function SkipSlashes(s: seq<char>, i: nat): (j: nat)
    requires i <= |s|
    ensures i <= j <= |s|
    ensures forall k :: i <= k < j ==> s[k] == '/'
    ensures j == |s| || s[j] != '/'
    decreases |s| - i
  {
    if i < |s| && s[i] == '/' then SkipSlashes(s, i + 1) else i
  }

  /**
   * Where the subpath begins: the whole path when it is relative; otherwise
   * just after the colon or the leading separator, past every '/' that
   * immediately follows it.
   */
  function SubpathStart(s: seq<char>): (i: nat)
    ensures i <= |s|
    ensures Classify(s) == Relative ==> i == 0
    ensures Classify(s).Device? ==>
      Classify(s).colon < i && forall k :: Classify(s).colon < k < i ==> s[k] == '/'
    ensures Classify(s) == BootRelative || Classify(s) == CurFsRelative ==>
      0 < i && forall k :: 0 < k < i ==> s[k] == '/'
    ensures Classify(s) != Relative ==> i == |s| || s[i] != '/'
  {
    match Classify(s)
    case Relative => 0
    case Device(c) => SkipSlashes(s, c + 1)
    case _ => SkipSlashes(s, 1)
  }

  /** The subpath left for the per-filesystem lookup once the prefix is stripped. */
  function Subpath(s: seq<char>): (r: seq<char>)
    ensures |r| <= |s| && r == s[|s| - |r|..]
    ensures Classify(s) == Relative ==> r == s
    ensures r == [] || r[0] != '/'
  {
    s[SubpathStart(s)..]
  }

  /** The device name of a device-qualified path: everything before its colon. */
  function DeviceName(s: seq<char>): (name: seq<char>)
    requires Classify(s).Device?
    ensures 0 < |name| < |s| && s == name + [':'] + s[|name| + 1..]
    ensures DelimFree(name, |name|)
  {
    s[..Classify(s).colon]
  }

  /** The index of the first c in s, if there is one (kernel_strchr). */
  function IndexOf(s: seq<char>, c: char): (r: Option<nat>)
    ensures r.None? <==> c !in s
    ensures r.Some? ==> r.value < |s| && s[r.value] == c && c !in s[..r.value]
  {
    if s == [] then None
    else if s[0] == c then Some(0)
    else match IndexOf(s[1..], c)
      case None => None
      case Some(k) => assert s[..k + 1] == [s[0]] + s[1..][..k]; Some(k + 1)
  }

  /** A run of n slashes. */
  function Slashes(n: nat): (r: seq<char>)
    ensures |r| == n && forall k :: 0 <= k < n ==> r[k] == '/'
  {
    seq(n, _ => '/')
  }

  /** SkipSlashes stops exactly at the end of a run of n slashes. */
  lemma SlashRunEnds(s: seq<char>, i: nat, n: nat)
    requires i + n <= |s|
    requires forall k :: i <= k < i + n ==> s[k] == '/'
    requires i + n == |s| || s[i + n] != '/'
    ensures SkipSlashes(s, i) == i + n
  {
  }

  /**
   * A device-qualified path names its device and its subpath however many
   * slashes follow the colon: "dev:foo" and "dev:///foo" are the same.
   */
  lemma {:induction false} DeviceForm(name: seq<char>, n: nat, rest: seq<char>)
    requires |name| > 0 && DelimFree(name, |name|)
    requires rest == [] || rest[0] != '/'
    ensures var s := name + [':'] + Slashes(n) + rest;
      Classify(s) == Device(|name|) && DeviceName(s) == name && Subpath(s) == rest
  {
    var s := name + [':'] + Slashes(n) + rest;
    var c := |name|;
    assert s[c] == ':';
    assert DelimFree(s, c) by {
      forall k | 0 <= k < c ensures !IsDelim(s[k]) { assert s[k] == name[k]; }
    }
    assert Classify(s).Device?;
    var d := Classify(s).colon;
    assert d == c;
    forall k | c + 1 <= k < c + 1 + n ensures s[k] == '/' {
      assert s[k] == Slashes(n)[k - c - 1];
    }
    if rest != [] { assert s[c + 1 + n] == rest[0]; }
    SlashRunEnds(s, c + 1, n);
    assert s[c + 1 + n..] == rest;
  }

  /** Corollary: the slashes after a device's colon never reach the subpath. */
  lemma DeviceSlashesIgnored(name: seq<char>, n: nat, rest: seq<char>)
    requires |name| > 0 && DelimFree(name, |name|)
    requires rest == [] || rest[0] != '/'
    ensures Classify(name + [':'] + Slashes(n) + rest) == Classify(name + [':'] + rest) == Device(|name|)
    ensures Subpath(name + [':'] + Slashes(n) + rest) == Subpath(name + [':'] + rest) == rest
    ensures DeviceName(name + [':'] + Slashes(n) + rest) == DeviceName(name + [':'] + rest)
  {
    DeviceForm(name, n, rest);
    DeviceForm(name, 0, rest);
    assert name + [':'] + Slashes(0) + rest == name + [':'] + rest;
  }

  /**
   * A path that starts with '/' or ':' is role-relative; the separator and
   * every '/' right after it are consumed, and nothing else: "////x" and
   * ":///x" both leave "x", "/" leaves "", "::x" leaves ":x".
   */
  lemma {:induction false} RoleForm(lead: char, n: nat, rest: seq<char>)
    requires IsDelim(lead)
    requires rest == [] || rest[0] != '/'
    ensures var s := [lead] + Slashes(n) + rest;
      Classify(s) == (if lead == '/' then BootRelative else CurFsRelative) && Subpath(s) == rest
  {
    var s := [lead] + Slashes(n) + rest;
    assert s[0] == lead;
    forall k | 1 <= k < 1 + n ensures s[k] == '/' {
      assert s[k] == Slashes(n)[k - 1];
    }
    if rest != [] { assert s[1 + n] == rest[0]; }
    SlashRunEnds(s, 1, n);
    assert s[1 + n..] == rest;
  }

  /**
   * Only the first delimiter counts: when a '/' comes first the path is
   * relative and is handed on whole, whatever follows ("a/b:c").
   */
  lemma {:induction false} SlashFirstIsRelative(a: seq<char>, b: seq<char>)
    requires |a| > 0 && DelimFree(a, |a|)
    ensures Classify(a + ['/'] + b) == Relative && Subpath(a + ['/'] + b) == a + ['/'] + b
  {
    var s := a + ['/'] + b;
    assert s[|a|] == '/';
    assert DelimFree(s, |a|) by {
      forall k | 0 <= k < |a| ensures !IsDelim(s[k]) { assert s[k] == a[k]; }
    }
  }

  /** Relative paths, spelled out: a '/' first makes the colon after it ordinary. */
  lemma RelativeExamples()
    ensures Classify("foo/bar") == Relative && Subpath("foo/bar") == "foo/bar"
    ensures Classify("a/b:c") == Relative && Subpath("a/b:c") == "a/b:c"
  {
    SlashFirstIsRelative("foo", "bar");
    assert "foo/bar" == "foo" + ['/'] + "bar";
    SlashFirstIsRelative("a", "b:c");
    assert "a/b:c" == "a" + ['/'] + "b:c";
  }

  /** Device-qualified paths, spelled out: slashes after the colon are skipped. */
  lemma DeviceExamples()
    ensures Classify("dev1:foo") == Device(4) && DeviceName("dev1:foo") == "dev1" && Subpath("dev1:foo") == "foo"
    ensures Classify("dev1:/foo") == Device(4) && DeviceName("dev1:/foo") == "dev1" && Subpath("dev1:/foo") == "foo"
  {
    DeviceForm("dev1", 0, "foo");
    assert "dev1:foo" == "dev1" + [':'] + Slashes(0) + "foo";
    DeviceForm("dev1", 1, "foo");
    assert "dev1:/foo" == "dev1" + [':'] + Slashes(1) + "foo";
  }

  /** Device-qualified paths, spelled out: a colon first makes a later slash ordinary; "dev:" has no subpath. */
  lemma MoreDeviceExamples()
    ensures Classify("a:b/c") == Device(1) && Subpath("a:b/c") == "b/c"
    ensures Classify("dev:") == Device(3) && Subpath("dev:") == ""
  {
    DeviceForm("a", 0, "b/c");
    assert "a:b/c" == "a" + [':'] + Slashes(0) + "b/c";
    DeviceForm("dev", 0, "");
    assert "dev:" == "dev" + [':'] + Slashes(0) + "";
  }

  /** Role-relative paths, spelled out: only '/' is collapsed after the lead. */
  lemma RoleExamples()
    ensures Classify("////x") == BootRelative && Subpath("////x") == "x"
    ensures Classify(":///x") == CurFsRelative && Subpath(":///x") == "x"
    ensures Classify("/") == BootRelative && Subpath("/") == ""
    ensures Classify("::x") == CurFsRelative && Subpath("::x") == ":x"
  {
    RoleForm('/', 3, "x");
    assert "////x" == ['/'] + Slashes(3) + "x";
    RoleForm(':', 3, "x");
    assert ":///x" == [':'] + Slashes(3) + "x";
    RoleForm('/', 0, "");
    assert "/" == ['/'] + Slashes(0) + "";
    RoleForm(':', 0, ":x");
    assert "::x" == [':'] + Slashes(0) + ":x";
  }
}
