/** Windows path handling as Python's `ntpath` performs it (`splitroot`,
    `basename`, `join`); the installer targets Windows (it runs
    `msiexec.exe`), so `os.path` is `ntpath` there. Both `\` and `/` are
    separators; `join` inserts `\`. */
module WinPath {
  import opened Wrappers
  import opened Text

  predicate IsSep(c: char) {
    c == '\\' || c == '/'
  }

  predicate HasNoSep(s: string) {
    forall i :: 0 <= i < |s| ==> !IsSep(s[i])
  }

  /** A path split into drive (`C:` or a UNC share), root (one separator or
      nothing) and the rest. */
  datatype Parts = Parts(drive: string, root: string, path: string)

  /** Position of the first separator at or after `from`, as `str.find`. */
  function FindSep(s: string, from: nat): (r: Option<nat>)
    requires from <= |s|
    ensures r.Some? ==> from <= r.value < |s| && IsSep(s[r.value])
    ensures r.Some? ==> forall j :: from <= j < r.value ==> !IsSep(s[j])
    ensures r.None? ==> forall j :: from <= j < |s| ==> !IsSep(s[j])
    decreases |s| - from
  {
    if from == |s| then None
    else if IsSep(s[from]) then Some(from)
    else FindSep(s, from + 1)
  }

  /** The `\\?\UNC\` prefix, compared case-insensitively with either
      separator. */
  predicate HasUncPrefix(p: string) {
    && |p| >= 8
    && IsSep(p[0]) && IsSep(p[1]) && p[2] == '?' && IsSep(p[3])
    && (p[4] == 'U' || p[4] == 'u') && (p[5] == 'N' || p[5] == 'n')
    && (p[6] == 'C' || p[6] == 'c') && IsSep(p[7])
  }

  /** `ntpath.splitroot`. */
  function SplitRoot(p: string): (r: Parts)
    ensures r.drive + r.root + r.path == p
    ensures r.root == [] || (|r.root| == 1 && IsSep(r.root[0]))
    ensures r.drive == [] && r.root == [] ==> r.path == p
    ensures r.drive != [] && r.root == [] && r.path != [] ==> r.drive == p[..2] && p[1] == ':'
    ensures r.drive != [] && r.root == [] && r.path != [] ==> r.drive[|r.drive| - 1] == ':'
    ensures r.drive == [] ==> (r.root == [] <==> (p == [] || !IsSep(p[0])))
    ensures r.drive != [] ==> p != [] && (IsSep(p[0]) || (|p| >= 2 && r.drive == p[..2] && p[1] == ':'))
    ensures r.drive != [] ==> (|p| >= 2 && IsSep(p[0]) && IsSep(p[1])) || (|p| >= 2 && !IsSep(p[0]) && p[1] == ':')
    ensures |p| >= 2 && IsSep(p[0]) && IsSep(p[1]) ==> r == SplitUnc(p)
    ensures |p| >= 2 && !IsSep(p[0]) && p[1] == ':' ==> r.drive == p[..2]
    ensures |p| >= 2 && !IsSep(p[0]) && p[1] == ':' ==> (r.root != [] <==> |p| >= 3 && IsSep(p[2]))
  {
    if |p| >= 1 && IsSep(p[0]) then
      if |p| >= 2 && IsSep(p[1]) then SplitUnc(p)
      else Parts([], p[..1], p[1..])
    else if |p| >= 2 && p[1] == ':' then
      if |p| >= 3 && IsSep(p[2]) then Parts(p[..2], p[2..3], p[3..])
      else Parts(p[..2], [], p[2..])
    else Parts([], [], p)
  }

  /** Where the server name of a UNC path starts: after `\\?\UNC\` when
      that prefix is present, after the two leading separators otherwise. */
  function UncStart(p: string): nat {
    if HasUncPrefix(p) then 8 else 2
  }

  /** `server<sep>share`: exactly one separator. */
  ghost predicate ServerShare(s: string) {
    exists i :: 0 <= i < |s| && IsSep(s[i]) && HasNoSep(s[..i]) && HasNoSep(s[i + 1..])
  }

  /** At most one separator. */
  predicate AtMostOneSep(s: string) {
    forall i, j :: 0 <= i < j < |s| ==> !(IsSep(s[i]) && IsSep(s[j]))
  }

  /** `ntpath.splitroot` of a path starting with two separators: the drive
      is the `\\server\share` prefix (after `\\?\UNC\` when present),
      ending just before the second separator after the prefix, which is the
      root; without that second separator the whole path is the drive. */
  function SplitUnc(p: string): (r: Parts)
    requires |p| >= 2 && IsSep(p[0]) && IsSep(p[1])
    ensures r.drive + r.root + r.path == p
    ensures r.root == [] || (|r.root| == 1 && IsSep(r.root[0]))
    ensures r.drive != [] && (r.root != [] || r.path == [])
    ensures r.root != [] ==> UncStart(p) < |r.drive| && ServerShare(p[UncStart(p)..|r.drive|])
    ensures r.root == [] ==> r.drive == p && UncStart(p) <= |p| && AtMostOneSep(p[UncStart(p)..])
  {
    var start := UncStart(p);
    match FindSep(p, start)
    case None =>
      NoSepAtMostOne(p, start);
      Parts(p, [], [])
    case Some(i) =>
      match FindSep(p, i + 1)
      case None =>
        OneSepAtMostOne(p, start, i);
        Parts(p, [], [])
      case Some(j) =>
        assert p[..j] + p[j..j + 1] + p[j + 1..] == p;
        TwoSepsServerShare(p, start, i, j);
        Parts(p[..j], p[j..j + 1], p[j + 1..])
  }

  lemma NoSepAtMostOne(p: string, start: nat)
    requires start <= |p|
    requires forall k :: start <= k < |p| ==> !IsSep(p[k])
    ensures AtMostOneSep(p[start..])
  {
    var s := p[start..];
    forall i | 0 <= i < |s| ensures !IsSep(s[i]) {
      assert s[i] == p[start + i];
    }
  }

  lemma OneSepAtMostOne(p: string, start: nat, i: nat)
    requires start <= i < |p|
    requires forall k :: start <= k < |p| && k != i ==> !IsSep(p[k])
    ensures AtMostOneSep(p[start..])
  {
    var s := p[start..];
    forall a, b | 0 <= a < b < |s| ensures !(IsSep(s[a]) && IsSep(s[b])) {
      assert s[a] == p[start + a] && s[b] == p[start + b];
    }
  }

  lemma TwoSepsServerShare(p: string, start: nat, i: nat, j: nat)
    requires start <= i < j <= |p|
    requires IsSep(p[i])
    requires forall k :: start <= k < j && k != i ==> !IsSep(p[k])
    ensures ServerShare(p[start..j])
  {
    var s := p[start..j];
    var m := i - start;
    assert s[m] == p[i];
    var before, after := s[..m], s[m + 1..];
    forall k | 0 <= k < |before| ensures !IsSep(before[k]) {
      assert before[k] == p[start + k];
    }
    forall k | 0 <= k < |after| ensures !IsSep(after[k]) {
      assert after[k] == p[i + 1 + k];
    }
  }

  /** The part of `s` after its last separator. */
  function AfterLastSep(s: string): (r: string)
    ensures EndsWith(s, r)
    ensures HasNoSep(r)
    ensures |r| == |s| || IsSep(s[|s| - |r| - 1])
    decreases |s|
  {
    if s == [] then []
    else if IsSep(s[|s| - 1]) then []
    else AfterLastSep(s[..|s| - 1]) + [s[|s| - 1]]
  }

  /** `ntpath.basename`: the final component, after the drive and the last
      separator. It is the whole separator-free tail of the part after the
      drive and root: that part either is the result or has a separator
      just before it. */
  function Basename(p: string): (r: string)
    ensures EndsWith(p, r)
    ensures HasNoSep(r)
    ensures var path := SplitRoot(p).path;
      EndsWith(path, r) && (|r| == |path| || IsSep(path[|path| - |r| - 1]))
  {
    var parts := SplitRoot(p);
    EndsWithAppend(parts.drive + parts.root, parts.path, AfterLastSep(parts.path));
    AfterLastSep(parts.path)
  }

  /** A path with neither drive nor root, which `join` appends to the first
      path instead of letting it replace the first path. */
  predicate IsRelative(p: string) {
    var parts := SplitRoot(p);
    parts.drive == [] && parts.root == []
  }

  /** The last step of `ntpath.join`: a UNC drive without root gets a
      separator before a non-empty rest. */
  function Assemble(drive: string, root: string, path: string): string {
    if path != [] && root == [] && drive != [] && !(drive[|drive| - 1] == ':' || IsSep(drive[|drive| - 1]))
    then drive + "\\" + path
    else drive + root + path
  }

  lemma AssembleEnd(drive: string, root: string, path: string)
    ensures EndsWith(Assemble(drive, root, path), path)
  {
    if path != [] && root == [] && drive != [] && !(drive[|drive| - 1] == ':' || IsSep(drive[|drive| - 1])) {
      EndsWithAppend(drive + "\\", path, path);
    } else {
      EndsWithAppend(drive + root, path, path);
    }
  }

  /** `ntpath.join(a, b)` for two components: the result always ends with
      the part of `b` after its drive and root; a `b` with a root and a
      drive, or with a drive other than `a`'s, replaces `a` entirely; and a
      `b` with a root but no drive keeps `a`'s drive. */
  function Join(a: string, b: string): (r: string)
    ensures EndsWith(r, SplitRoot(b).path)
    ensures var pa, pb := SplitRoot(a), SplitRoot(b);
      pb.drive != [] && (pb.root != [] || Lower(pb.drive) != Lower(pa.drive)) ==> r == b
    ensures var pa, pb := SplitRoot(a), SplitRoot(b);
      pb.drive == [] && pb.root != [] ==> r == pa.drive + b
  {
    var pa, pb := SplitRoot(a), SplitRoot(b);
    JoinPartsEnd(pa, pb);
    JoinPartsReplace(pa, pb);
    JoinParts(pa, pb)
  }

  /** A second component that names the first's drive (in any case) but has
      no root continues the first's root and path, under the second's
      spelling of the drive: `join("C:\\x", "c:y") == "c:\\x\\y"`. */
  lemma JoinSameDrive(a: string, b: string)
    requires SplitRoot(b).drive != [] && SplitRoot(b).root == []
    requires Lower(SplitRoot(b).drive) == Lower(SplitRoot(a).drive)
    ensures var pa, pb := SplitRoot(a), SplitRoot(b);
      Join(a, b) == pb.drive + pa.root + WithTrailingSep(pa.path) + pb.path
  {
    JoinPartsSameDrive(SplitRoot(a), SplitRoot(b));
  }

  /** The folder part `ntpath.join` continues from: a non-empty path that
      does not end in a separator gains one `\`. */
  function WithTrailingSep(path: string): string {
    if path != [] && !IsSep(path[|path| - 1]) then path + "\\" else path
  }

  /** A second component on the same drive (in any case) but without a root
      continues the first's root and path, under the second's spelling of
      the drive. */
  lemma JoinPartsSameDrive(pa: Parts, pb: Parts)
    requires pa.drive != [] && pa.root == [] && pa.path != [] ==> pa.drive[|pa.drive| - 1] == ':'
    requires pb.drive != [] && pb.root == [] && pb.path != [] ==> pb.drive[|pb.drive| - 1] == ':'
    ensures pb.drive != [] && pb.root == [] && Lower(pb.drive) == Lower(pa.drive) ==>
              JoinParts(pa, pb) == pb.drive + pa.root + WithTrailingSep(pa.path) + pb.path
  {
    if pb.drive != [] && pb.root == [] && Lower(pb.drive) == Lower(pa.drive) {
      var rest := WithTrailingSep(pa.path) + pb.path;
      assert JoinParts(pa, pb) == Assemble(pb.drive, pa.root, rest);
      if rest != [] && pa.root == [] && pb.path == [] {
        var k := |pb.drive| - 1;
        assert |Lower(pa.drive)| == |pa.drive| && pa.drive != [];
        assert LowerChar(pa.drive[k]) == Lower(pa.drive)[k] == Lower(pb.drive)[k] == LowerChar(pb.drive[k]);
      }
    }
  }

  /** The body of `ntpath.join` on the split components. */
  function JoinParts(pa: Parts, pb: Parts): string {
    if pb.root != [] then
      Assemble(if pb.drive != [] || pa.drive == [] then pb.drive else pa.drive, pb.root, pb.path)
    else if pb.drive != [] && pb.drive != pa.drive && Lower(pb.drive) != Lower(pa.drive) then
      Assemble(pb.drive, pb.root, pb.path)
    else
      Assemble(if pb.drive != [] then pb.drive else pa.drive, pa.root, WithTrailingSep(pa.path) + pb.path)
  }

  /** The two branches of `ntpath.join` that keep nothing of `a` but,
      perhaps, its drive. */
  lemma JoinPartsReplace(pa: Parts, pb: Parts)
    requires pb.drive != [] && pb.root == [] && pb.path != [] ==> pb.drive[|pb.drive| - 1] == ':'
    ensures pb.drive != [] && (pb.root != [] || Lower(pb.drive) != Lower(pa.drive)) ==>
              JoinParts(pa, pb) == pb.drive + pb.root + pb.path
    ensures pb.drive == [] && pb.root != [] ==> JoinParts(pa, pb) == pa.drive + pb.root + pb.path
  {
    if pb.root != [] {
      var d := if pb.drive != [] || pa.drive == [] then pb.drive else pa.drive;
      assert JoinParts(pa, pb) == Assemble(d, pb.root, pb.path);
    } else if pb.drive != [] && Lower(pb.drive) != Lower(pa.drive) {
      assert JoinParts(pa, pb) == Assemble(pb.drive, pb.root, pb.path);
    }
  }

  lemma JoinPartsEnd(pa: Parts, pb: Parts)
    ensures EndsWith(JoinParts(pa, pb), pb.path)
  {
    if pb.root != [] {
      var d := if pb.drive != [] || pa.drive == [] then pb.drive else pa.drive;
      assert JoinParts(pa, pb) == Assemble(d, pb.root, pb.path);
      AssembleEnd(d, pb.root, pb.path);
    } else if pb.drive != [] && pb.drive != pa.drive && Lower(pb.drive) != Lower(pa.drive) {
      assert JoinParts(pa, pb) == Assemble(pb.drive, pb.root, pb.path);
      AssembleEnd(pb.drive, pb.root, pb.path);
    } else {
      var head := WithTrailingSep(pa.path);
      var d := if pb.drive != [] then pb.drive else pa.drive;
      var r := Assemble(d, pa.root, head + pb.path);
      assert JoinParts(pa, pb) == r;
      AssembleEnd(d, pa.root, head + pb.path);
      EndsWithAppend(head, pb.path, pb.path);
      EndsWithTrans(r, head + pb.path, pb.path);
    }
  }

  /** Joining a relative `b` onto the parts of `a` puts `b` after a prefix
      `x` that is `a` itself or `a` plus one `\`, and that is empty, ends in
      a separator, or is a bare drive. */
  lemma JoinPartsRelative(pa: Parts, b: string) returns (x: string)
    requires pa.root == [] || (|pa.root| == 1 && IsSep(pa.root[0]))
    requires pa.drive != [] && pa.root == [] && pa.path != [] ==> pa.drive[|pa.drive| - 1] == ':'
    ensures JoinParts(pa, Parts([], [], b)) == x + b
    ensures var a := pa.drive + pa.root + pa.path; x == a || (a != [] && x == a + "\\")
    ensures x == [] || IsSep(x[|x| - 1]) || (x == pa.drive && pa.root == [] && pa.path == [])
  {
    if pa.path != [] && !IsSep(pa.path[|pa.path| - 1]) {
      x := pa.drive + pa.root + pa.path + "\\";
      assert JoinParts(pa, Parts([], [], b)) == Assemble(pa.drive, pa.root, pa.path + "\\" + b);
      assert Assemble(pa.drive, pa.root, pa.path + "\\" + b) == pa.drive + pa.root + (pa.path + "\\" + b);
      assert pa.drive + pa.root + (pa.path + "\\" + b) == x + b;
    } else {
      assert JoinParts(pa, Parts([], [], b)) == Assemble(pa.drive, pa.root, pa.path + b);
      if b != [] && pa.root == [] && pa.drive != [] && !(pa.drive[|pa.drive| - 1] == ':' || IsSep(pa.drive[|pa.drive| - 1])) {
        x := pa.drive + "\\";
      } else {
        x := pa.drive + pa.root + pa.path;
        if pa.path != [] {
          assert x[|x| - 1] == pa.path[|pa.path| - 1];
        } else if pa.root != [] {
          assert x[|x| - 1] == pa.root[0];
        }
      }
    }
  }

  /** Joining a relative component appends it to the first path, with one
      `\` in between exactly when the first path is not empty, does not
      already end in a separator, and is not a bare drive letter `X:`; a
      bare UNC share gets the `\` too, unless nothing is appended. */
  lemma JoinRelative(a: string, b: string) returns (x: string)
    requires IsRelative(b)
    ensures Join(a, b) == x + b
    ensures x == a || (a != [] && x == a + "\\")
    ensures x == [] || IsSep(x[|x| - 1]) || (x == a && SplitRoot(a).drive == a)
    ensures x == if a != [] && !IsSep(a[|a| - 1]) && (SplitRoot(a).drive == a ==> b != [] && a[|a| - 1] != ':')
                 then a + "\\" else a
  {
    var pa := SplitRoot(a);
    assert SplitRoot(b) == Parts([], [], b);
    x := JoinPartsRelative(pa, b);
    if a != [] && !IsSep(a[|a| - 1]) && pa.drive != a {
      assert pa.path != [] && a[|a| - 1] == pa.path[|pa.path| - 1];
    }
  }

  /** The file name can be read back from a joined path: `basename(join(a,
      f)) == f` for a plain file name `f` and a directory `a` that does not
      start with a separator (a drive path such as `C:\Users\me\Downloads`,
      or a relative one). */
  lemma BasenameOfJoin(a: string, f: string)
    requires HasNoSep(f)
    requires IsRelative(f)
    requires a == [] || !IsSep(a[0])
    ensures Basename(Join(a, f)) == f
  {
    var x := JoinRelative(a, f);
    if x == [] {
      BasenameOfPlain(f);
    } else if IsSep(x[|x| - 1]) {
      assert x[0] == a[0];
      BasenameAfterSep(x, f);
    } else {
      assert x == a;
      BasenameAfterDrive(x, f);
    }
  }

  /** A relative name without separators is its own final component. */
  lemma BasenameOfPlain(f: string)
    requires HasNoSep(f)
    requires IsRelative(f)
    ensures Basename(f) == f
  {
    assert SplitRoot(f).path == f;
    AfterLastSepOfSuffix([], f, f);
  }

  /** After a bare drive such as `C:`, the final component is the rest. */
  lemma BasenameAfterDrive(x: string, f: string)
    requires HasNoSep(f)
    requires x != [] && !IsSep(x[0]) && SplitRoot(x).drive == x
    ensures Basename(x + f) == f
  {
    var px := SplitRoot(x);
    assert |x| >= 2 && x == x[..2] && x[1] == ':' && !IsSep(x[0]);
    var r := x + f;
    var pr := SplitRoot(r);
    assert r == pr.drive + pr.root + pr.path;
    assert f != [] ==> r[2] == f[0];
    assert pr.drive == r[..2];
    assert pr.path == f;
    AfterLastSepOfSuffix(x, f, pr.path);
  }

  /** After a non-UNC prefix that ends in a separator, the last component
      is what follows that separator. */
  lemma BasenameAfterSep(x: string, f: string)
    requires HasNoSep(f)
    requires x != [] && IsSep(x[|x| - 1])
    requires !(|x| >= 2 && IsSep(x[0]) && IsSep(x[1]))
    ensures Basename(x + f) == f
  {
    var r := x + f;
    var pr := SplitRoot(r);
    assert r == pr.drive + pr.root + pr.path;
    assert r[0] == x[0];
    if |r| >= 2 && IsSep(r[0]) {
      assert |x| == 1 ==> r[1] == f[0];
    } else if |r| >= 2 && r[1] == ':' {
      assert |x| >= 3;
    }
    assert |pr.drive| + |pr.root| <= |x|;
    assert pr.path == r[|pr.drive| + |pr.root|..];
    AfterLastSepOfSuffix(x, f, pr.path);
  }

  /** `f` is the final component of any suffix of `x + f` that reaches back
      to a separator or to the start. */
  lemma AfterLastSepOfSuffix(x: string, f: string, s: string)
    requires HasNoSep(f)
    requires EndsWith(x + f, s)
    requires |s| >= |f|
    requires |s| == |f| || IsSep((x + f)[|x| - 1])
    ensures AfterLastSep(s) == f
  {
  }

  /** A relative name whose first two characters are neither separators nor
      a drive colon has no drive and no root. */
  lemma PlainIsRelative(p: string)
    requires |p| >= 2 && !IsSep(p[0]) && p[1] != ':'
    ensures IsRelative(p)
  {
  }

  /** Joining a relative name under a relative directory that does not end
      in a separator inserts exactly one backslash. */
  lemma JoinUnderDir(a: string, b: string)
    requires IsRelative(a) && IsRelative(b)
    requires a != [] && !IsSep(a[|a| - 1])
    ensures Join(a, b) == a + "\\" + b
  {
    var x := JoinRelative(a, b);
    assert SplitRoot(a).drive != a;
    assert x != a;
  }

  /** Two strings without separators concatenate to one without. */
  lemma ConcatNoSep(a: string, b: string)
    requires HasNoSep(a) && HasNoSep(b)
    ensures HasNoSep(a + b)
  {
    forall i | 0 <= i < |a + b| ensures !IsSep((a + b)[i]) {
      if i >= |a| {
        assert (a + b)[i] == b[i - |a|];
      }
    }
  }

  /** When `x` is a separator-free tail of at least three characters whose
      first two are not a drive colon, and `a + x` is no UNC path, the drive
      and root of `a + x` lie within `a`. */
  lemma RootWithinPrefix(a: string, x: string)
    requires |x| >= 3 && HasNoSep(x) && x[0] != ':' && x[1] != ':'
    requires !(|a| >= 2 && IsSep(a[0]) && IsSep(a[1]))
    ensures |SplitRoot(a + x).drive| + |SplitRoot(a + x).root| <= |a|
  {
    var f := a + x;
    assert |a| == 0 ==> f[0] == x[0] && f[1] == x[1];
    assert |a| == 1 ==> f[0] == a[0] && f[1] == x[0] && f[2] == x[1];
    assert |a| == 2 ==> f[1] == a[1] && f[2] == x[0];
    assert |a| >= 2 ==> f[0] == a[0] && f[1] == a[1];
  }

  /** Joining a UNC drive onto a folder on that same share keeps the folder
      and adds a trailing separator: `join("//a/b.msi/x", "//a/b.msi")` is
      `//a/b.msi/x\`. */
  lemma JoinSameShare(a: string, b: string)
    requires a == "//a/b.msi/x" && b == "//a/b.msi"
    ensures SplitRoot(a) == Parts(b, "/", "x") && SplitRoot(b) == Parts(b, "", "")
    ensures Join(a, b) == "//a/b.msi/x\\"
  {
    ShareWithPath(a);
    BareShare(b);
    assert a[..9] == b;
    JoinOwnShare(a, b);
  }

  /** Joining a folder's own bare UNC share onto it keeps the folder and
      adds a separator. */
  lemma JoinOwnShare(a: string, b: string)
    requires SplitRoot(b) == Parts(b, [], [])
    requires SplitRoot(a).drive == b && SplitRoot(a).root != []
    requires SplitRoot(a).path != [] && !IsSep(SplitRoot(a).path[|SplitRoot(a).path| - 1])
    ensures Join(a, b) == a + "\\"
  {
    var pa, pb := SplitRoot(a), SplitRoot(b);
    JoinPartsOwnDrive(pa, pb);
    assert a == pa.drive + pa.root + pa.path;
  }

  lemma JoinPartsOwnDrive(pa: Parts, pb: Parts)
    requires pb == Parts(pa.drive, [], []) && pa.root != []
    requires pa.path != [] && !IsSep(pa.path[|pa.path| - 1])
    ensures JoinParts(pa, pb) == pa.drive + pa.root + pa.path + "\\"
  {
    assert JoinParts(pa, pb) == Assemble(pa.drive, pa.root, pa.path + "\\");
  }

  lemma ShareWithPath(a: string)
    requires a == "//a/b.msi/x"
    ensures SplitRoot(a) == Parts(a[..9], "/", "x")
  {
    assert a[2] == 'a' && a[3] == '/' && a[9] == '/';
    assert !IsSep(a[4]) && !IsSep(a[5]) && !IsSep(a[6]) && !IsSep(a[7]) && !IsSep(a[8]);
    assert FindSep(a, 2) == Some(3);
    assert FindSep(a, 9) == Some(9);
    assert FindSep(a, 7) == FindSep(a, 8) == FindSep(a, 9);
    assert FindSep(a, 4) == FindSep(a, 5) == FindSep(a, 6) == FindSep(a, 7);
  }

  lemma BareShare(b: string)
    requires b == "//a/b.msi"
    ensures SplitRoot(b) == Parts(b, [], [])
  {
    assert FindSep(b, 2) == Some(3) && FindSep(b, 4) == None;
  }
}
