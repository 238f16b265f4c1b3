/** `install_tool`: from one tool record, the install folder, the silent
    flag and the I/O it performs, the plan of what is downloaded, which
    path is installed from, which command line is run, and whether the
    tool counts as installed. */
module Installer {
  import opened Wrappers
  import opened Text
  import opened WinPath
  import opened Manifest
  import opened Flags

  const StaticDir: string := "static"

  /** The record's `type`, lower-cased. */
  datatype Kind = Static | Dynamic | Unknown

  function KindOf(t: Tool): Kind {
    var k := Lower(t.kind);
    if k == "static" then Static else if k == "dynamic" then Dynamic else Unknown
  }

  /** The record's type is matched without regard to case: `Static`,
      `STATIC` and `static` all name a static tool. */
  lemma KindIgnoresCase(t: Tool)
    ensures KindOf(t) == Static <==> EqualsIgnoringCase(t.kind, "static")
    ensures KindOf(t) == Dynamic <==> EqualsIgnoringCase(t.kind, "dynamic")
    ensures KindOf(t) == Unknown <==> !EqualsIgnoringCase(t.kind, "static") && !EqualsIgnoringCase(t.kind, "dynamic")
  {
    LowerWordStatic("static");
    LowerWordDynamic("dynamic");
    LowerMatches(t.kind, "static");
    LowerMatches(t.kind, "dynamic");
  }

  lemma LowerWordStatic(w: string)
    requires w == "static"
    ensures IsLowerWord(w)
  {
  }

  lemma LowerWordDynamic(w: string)
    requires w == "dynamic"
    ensures IsLowerWord(w)
  {
  }

  /** Installer mechanism, inferred from the URL's suffix. */
  datatype Ext = Msi | Exe

  function Suffix(e: Ext): string {
    match e
    case Msi => ".msi"
    case Exe => ".exe"
  }

  /** `.msi` when the URL ends in exactly `.msi`; `.exe` otherwise, including
      a URL that ends in `.exe`, in `.MSI`, or in no suffix at all. */
  function InferExt(url: string): (e: Ext)
    ensures e == Msi <==> |url| >= 4 && url[|url| - 4..] == ".msi"
  {
    if EndsWith(url, ".msi") then Msi
    else if EndsWith(url, ".exe") then Exe
    else Exe
  }

  /** The downloaded file's name: the tool name with every space turned into
      `_`, then the inferred suffix. */
  function FileName(name: string, e: Ext): (f: string)
    ensures |f| == |name| + 4
    ensures forall i :: 0 <= i < |name| ==> f[i] == (if name[i] == ' ' then '_' else name[i])
    ensures EndsWith(f, Suffix(e))
    ensures forall i :: 0 <= i < |f| ==> f[i] != ' '
  {
    ReplaceChar(name, ' ', '_') + Suffix(e)
  }

  /** Where a downloaded installer is written. */
  function DefaultPath(t: Tool, folder: string): string {
    Join(folder, FileName(t.name, InferExt(t.url)))
  }

  /** Where a static tool's installer is looked for next to the program. */
  function LocalStaticPath(url: string): string {
    Join(StaticDir, Basename(url))
  }

  /** Where a static tool's installer is fetched from when it is not on disk. */
  function StaticUrl(url: string): string {
    GitHubRawBase + "/static/" + Basename(url)
  }

  /** The fallback URL of a static tool is the repository's raw `static/`
      folder followed by the last component of the record's URL, whatever
      folders that URL names: the whole separator-free tail of the URL's
      part after its drive and root. */
  lemma StaticUrlLayout(url: string)
    ensures var r, n := StaticUrl(url), |GitHubRawBase| + 8;
      && |r| >= n && r[..n] == GitHubRawBase + "/static/"
      && HasNoSep(r[n..]) && EndsWith(url, r[n..])
    ensures var r, n, path := StaticUrl(url), |GitHubRawBase| + 8, SplitRoot(url).path;
      && |r| >= n
      && var tail := r[n..];
      && EndsWith(path, tail) && (|tail| == |path| || IsSep(path[|path| - |tail| - 1]))
  {
    var n := |GitHubRawBase| + 8;
    var b := Basename(url);
    assert StaticUrl(url) == (GitHubRawBase + "/static/") + b;
    assert StaticUrl(url)[n..] == b;
  }

  /** What the installer process reports: an exit status, or that it could
      not be started at all. */
  datatype ExitStatus = Exited(code: int) | LaunchFailed

  /** The I/O `install_tool` performs: `os.path.isfile`, `download_tool`
      (false on any network or write error) and `subprocess.run`. */
  datatype Env = Env(
    isFile: string -> bool,
    download: (string, string) -> bool,
    run: seq<string> -> ExitStatus)

  datatype Download = Download(url: string, dest: string)

  /** The observable decisions of one `install_tool` call. `command` is the
      argument vector handed to the installer process, if one is started. */
  datatype Plan = Plan(download: Option<Download>, path: string, command: Option<seq<string>>, ok: bool)

  /** The installer command line for an artifact at `path`. */
  function Command(e: Ext, path: string, silent: bool, silentArgs: Option<string>): (r: seq<string>)
    ensures e == Msi ==> |r| >= 3 && r[..3] == ["msiexec.exe", "/i", path]
    ensures e == Exe ==> |r| >= 1 && r[0] == path
    ensures !silent ==> |r| == (if e == Msi then 3 else 1)
  {
    match e
    case Msi => ["msiexec.exe", "/i", path] + (if silent then ["/quiet", "/norestart"] else [])
    case Exe => [path] + (if silent then Words(silentArgs.GetOr(DefaultSilentArgs)) else [])
  }

  /** Runs the installer from `path` and reports whether it exited with 0. */
  function Run(t: Tool, path: string, fetched: Option<Download>, silent: bool, env: Env): (p: Plan)
    ensures p.download == fetched && p.path == path
    ensures p.command == Some(Command(InferExt(t.url), path, silent, t.silentArgs))
    ensures p.ok <==> env.run(p.command.value) == Exited(0)
  {
    var argv := Command(InferExt(t.url), path, silent, t.silentArgs);
    Plan(fetched, path, Some(argv), env.run(argv) == Exited(0))
  }

  /** Downloads `url` to `dest`, then runs the installer if that worked. */
  function FetchThenRun(t: Tool, url: string, dest: string, silent: bool, env: Env): (p: Plan)
    ensures p.download == Some(Download(url, dest)) && p.path == dest
    ensures !env.download(url, dest) ==> p.command == None && !p.ok
    ensures env.download(url, dest) ==> p == Run(t, dest, Some(Download(url, dest)), silent, env)
  {
    if env.download(url, dest) then Run(t, dest, Some(Download(url, dest)), silent, env)
    else Plan(Some(Download(url, dest)), dest, None, false)
  }

  /** `install_tool(tool, folder, silent)`. */
  function PlanInstall(t: Tool, folder: string, silent: bool, env: Env): (p: Plan)
    // an unknown type is refused before any I/O
    ensures KindOf(t) == Unknown ==> p.download == None && p.command == None && !p.ok
    // a static tool found on disk is installed in place, with no download
    ensures KindOf(t) == Static && env.isFile(LocalStaticPath(t.url)) ==>
              p.download == None && p.path == LocalStaticPath(t.url) && p.command.Some?
    // otherwise the one download is the project copy (static) or the tool's URL (dynamic)
    ensures KindOf(t) == Static && !env.isFile(LocalStaticPath(t.url)) ==>
              p.download == Some(Download(StaticUrl(t.url), DefaultPath(t, folder)))
    ensures KindOf(t) == Dynamic ==> p.download == Some(Download(t.url, DefaultPath(t, folder)))
    ensures p.download.Some? ==> p.path == p.download.value.dest
    // a failed download stops the install
    ensures p.download.Some? ==>
              (env.download(p.download.value.url, p.download.value.dest) <==> p.command.Some?)
    // the command line depends only on the suffix, the path, the flag and silent_args
    ensures p.command.Some? ==> p.command.value == Command(InferExt(t.url), p.path, silent, t.silentArgs)
    // success is exactly a started installer exiting with 0
    ensures p.ok <==> p.command.Some? && env.run(p.command.value) == Exited(0)
  {
    var dest := DefaultPath(t, folder);
    match KindOf(t)
    case Static =>
      var local := LocalStaticPath(t.url);
      if env.isFile(local) then Run(t, local, None, silent, env)
      else FetchThenRun(t, StaticUrl(t.url), dest, silent, env)
    case Dynamic => FetchThenRun(t, t.url, dest, silent, env)
    case Unknown => Plan(None, dest, None, false)
  }

  /** A tool name that `join` appends to the folder: it neither starts with
      a separator nor carries a drive `X:`. */
  predicate PlainName(name: string) {
    (name == [] || !IsSep(name[0])) && !(|name| >= 2 && name[1] == ':')
  }

  lemma FileNameRelative(name: string, e: Ext)
    requires PlainName(name)
    ensures IsRelative(FileName(name, e))
  {
    var f := FileName(name, e);
    var x := Suffix(e);
    assert x[0] == '.' && x[1] != ':' && x[1] != '/' && x[1] != '\\';
    assert f[|f| - 4..] == x;
    assert f[|f| - 4] == x[0] && f[|f| - 3] == x[1];
    assert !IsSep(f[0]) by {
      if name != [] { assert f[0] == name[0] || f[0] == '_'; }
    }
    assert f[1] != ':' by {
      if |name| >= 2 { assert f[1] == name[1] || f[1] == '_'; }
    }
    PlainIsRelative(f);
  }

  /** A tool name that does not start with two separators, so that the
      download file name cannot read as a UNC drive. */
  predicate NotUncName(name: string) {
    !(|name| >= 2 && IsSep(name[0]) && IsSep(name[1]))
  }

  /** The suffix of the URL picks the suffix of the download path: `.msi`
      for a URL ending in `.msi`, `.exe` for every other URL. */
  lemma ExtensionPicksFileSuffix(t: Tool, folder: string)
    requires NotUncName(t.name)
    ensures EndsWith(t.url, ".msi") ==> EndsWith(DefaultPath(t, folder), ".msi")
    ensures !EndsWith(t.url, ".msi") ==> EndsWith(DefaultPath(t, folder), ".exe")
  {
    var e := InferExt(t.url);
    var f := FileName(t.name, e);
    var path := SplitRoot(f).path;
    FileNamePathKeepsSuffix(t.name, e);
    EndsWithTrans(DefaultPath(t, folder), path, Suffix(e));
  }

  /** Without `NotUncName` the suffix can be lost: the file name of a tool
      called `//a/b` is the UNC drive `//a/b.msi`, and joined under a folder
      on that same share it leaves a path ending in a separator. */
  lemma UncNameLosesSuffix(t: Tool, folder: string)
    requires t.name == "//a/b" && t.url == "x.msi" && folder == "//a/b.msi/x"
    ensures !EndsWith(DefaultPath(t, folder), ".msi")
  {
    assert EndsWith(t.url, ".msi");
    var f := FileName(t.name, Msi);
    assert f == "//a/b.msi";
    JoinSameShare(folder, f);
  }

  /** The part of a download file name after its drive and root still ends
      in the suffix: the drive and root lie within the tool name. */
  lemma FileNamePathKeepsSuffix(name: string, e: Ext)
    requires NotUncName(name)
    ensures EndsWith(SplitRoot(FileName(name, e)).path, Suffix(e))
  {
    var f := FileName(name, e);
    var x := Suffix(e);
    var a := ReplaceChar(name, ' ', '_');
    assert f == a + x;
    assert x[0] == '.' && x[1] != ':' && x[2] != ':' && HasNoSep(x) by {
      match e
      case Msi => assert x == ".msi";
      case Exe => assert x == ".exe";
    }
    assert |a| >= 2 ==> f[0] == a[0] && f[1] == a[1];
    var pf := SplitRoot(f);
    RootWithinPrefix(a, x);
    assert f == (pf.drive + pf.root) + pf.path;
    EndsWithShorter(f, pf.path, x);
  }

  /** The suffix of the URL picks the installer mechanism: `.msi` gives an
      `msiexec.exe /i <path>` command, anything else runs the file itself. */
  lemma ExtensionPicksMechanism(url: string, path: string, silent: bool, silentArgs: Option<string>)
    ensures EndsWith(url, ".msi") ==> Command(InferExt(url), path, silent, silentArgs)[..3] == ["msiexec.exe", "/i", path]
    ensures !EndsWith(url, ".msi") ==> Command(InferExt(url), path, silent, silentArgs)[0] == path
  {
  }

  lemma FileNameNoSep(name: string, e: Ext)
    requires HasNoSep(name)
    ensures HasNoSep(FileName(name, e))
  {
    var r := ReplaceChar(name, ' ', '_');
    var x := Suffix(e);
    assert HasNoSep(x) by {
      match e
      case Msi => assert x == ".msi";
      case Exe => assert x == ".exe";
    }
    assert HasNoSep(r);
    ConcatNoSep(r, x);
  }

  /** The download path ends in the tool's file name, which `basename` gives
      back, for a folder that is a drive or relative path. */
  lemma DownloadFileName(t: Tool, folder: string)
    requires PlainName(t.name) && HasNoSep(t.name)
    requires folder == [] || !IsSep(folder[0])
    ensures Basename(DefaultPath(t, folder)) == FileName(t.name, InferExt(t.url))
  {
    var e := InferExt(t.url);
    FileNameRelative(t.name, e);
    var f := FileName(t.name, e);
    FileNameNoSep(t.name, e);
    BasenameOfJoin(folder, f);
  }

  /** A static tool's local copy sits in `static\` under the URL's file name. */
  lemma LocalStaticLayout(url: string)
    ensures IsRelative(Basename(url)) ==> LocalStaticPath(url) == StaticDir + "\\" + Basename(url)
    ensures !IsRelative(Basename(url)) ==> LocalStaticPath(url) == Basename(url)
  {
    var b := Basename(url);
    if IsRelative(b) {
      StaticDirIsPlain(StaticDir);
      JoinUnderDir(StaticDir, b);
    } else {
      StaticDirIsPlain(StaticDir);
      var pa, pb := SplitRoot(StaticDir), SplitRoot(b);
      assert pb.drive != [];
      assert |Lower(pb.drive)| != |Lower(pa.drive)|;
    }
  }

  lemma StaticDirIsPlain(d: string)
    requires d == StaticDir
    ensures IsRelative(d) && d != [] && !IsSep(d[|d| - 1])
  {
    assert d[0] == 's' && d[1] == 't' && d[|d| - 1] == 'c';
    PlainIsRelative(d);
  }

  /** The MSI command line is `msiexec.exe /i <path>`, with `/quiet
      /norestart` exactly when silent. */
  lemma MsiCommand(path: string, silent: bool, silentArgs: Option<string>)
    ensures !silent ==> Command(Msi, path, silent, silentArgs) == ["msiexec.exe", "/i", path]
    ensures silent ==> Command(Msi, path, silent, silentArgs) == ["msiexec.exe", "/i", path, "/quiet", "/norestart"]
  {
  }

  /** Not silent, the EXE command line is the path alone, whatever
      `silent_args` says. */
  lemma ExeCommandInteractive(path: string, silentArgs: Option<string>)
    ensures Command(Exe, path, false, silentArgs) == [path]
  {
  }

  /** Silent without an override, the EXE gets `/S /silent /quiet`. */
  lemma ExeCommandDefaultFlags(path: string)
    ensures Command(Exe, path, true, None) == [path, "/S", "/silent", "/quiet"]
  {
    DefaultSilentWords();
    var w := Words(DefaultSilentArgs);
    assert Command(Exe, path, true, None) == [path] + w;
  }

  /** Silent with an override, the EXE gets the override's whitespace-split
      tokens. */
  lemma ExeCommandSilent(path: string, silentArgs: string)
    ensures Command(Exe, path, true, Some(silentArgs)) == [path] + Words(silentArgs)
  {
  }

  /** Silent with an override, the EXE gets exactly the override's flags. */
  lemma ExeCommandOverride(path: string, flags: seq<string>)
    requires forall i :: 0 <= i < |flags| ==> IsWord(flags[i])
    ensures Command(Exe, path, true, Some(JoinWords(flags))) == [path] + flags
  {
    WordsOfJoin(flags);
  }

  /** A dynamic tool whose download works is installed from the download
      path with the command its suffix and flags call for. */
  lemma FetchedPlan(t: Tool, folder: string, silent: bool, env: Env)
    requires KindOf(t) == Dynamic
    requires env.download(t.url, DefaultPath(t, folder))
    ensures PlanInstall(t, folder, silent, env).download == Some(Download(t.url, DefaultPath(t, folder)))
    ensures PlanInstall(t, folder, silent, env).command
            == Some(Command(InferExt(t.url), DefaultPath(t, folder), silent, t.silentArgs))
  {
  }

  /** A static tool found on disk is installed from there without a
      download. */
  lemma LocalStaticPlan(t: Tool, folder: string, silent: bool, env: Env)
    requires KindOf(t) == Static
    requires env.isFile(LocalStaticPath(t.url))
    ensures PlanInstall(t, folder, silent, env).download == None
    ensures PlanInstall(t, folder, silent, env).command
            == Some(Command(InferExt(t.url), LocalStaticPath(t.url), silent, t.silentArgs))
  {
  }

  /** The record kinds and installer suffixes of the built-in catalog, the
      WinDirStat URL and Malwarebytes' own flags. */
  lemma DefaultKinds()
    ensures KindOf(DefaultTools[0]) == Static && InferExt(DefaultTools[0].url) == Msi
    ensures KindOf(DefaultTools[3]) == Dynamic && InferExt(DefaultTools[3].url) == Exe
    ensures DefaultTools[0].url == "static/WinDirStat-x64.msi"
    ensures DefaultTools[3].silentArgs == Some(MalwarebytesSilentArgs)
  {
    assert Lower("static") == "static";
    assert Lower("dynamic") == "dynamic";
    var u := DefaultTools[3].url;
    assert u[|u| - 4..] == ".exe";
  }

  /** Silently, the Malwarebytes installer runs with its own three switches
      rather than the default ones. */
  lemma MalwarebytesCommandLine(path: string)
    ensures Command(Exe, path, true, Some(MalwarebytesSilentArgs)) == [path, "/VERYSILENT", "/SUPPRESSMSGBOXES", "/NORESTART"]
  {
    MalwarebytesWords();
    var w := Words(MalwarebytesSilentArgs);
    assert Command(Exe, path, true, Some(MalwarebytesSilentArgs)) == [path] + w;
  }

  /** Malwarebytes, installed silently from the built-in catalog, downloads
      its vendor URL and runs with its own three switches. */
  lemma MalwarebytesSilent(t: Tool, folder: string, env: Env)
    requires t == DefaultTools[3]
    requires env.download(t.url, DefaultPath(t, folder))
    ensures PlanInstall(t, folder, true, env).download == Some(Download(t.url, DefaultPath(t, folder)))
    ensures PlanInstall(t, folder, true, env).command ==
              Some([DefaultPath(t, folder), "/VERYSILENT", "/SUPPRESSMSGBOXES", "/NORESTART"])
  {
    DefaultKinds();
    FetchedPlan(t, folder, true, env);
    MalwarebytesCommandLine(DefaultPath(t, folder));
  }

  /** The built-in WinDirStat URL, `static/WinDirStat-x64.msi` (see
      `DefaultKinds`), names the file `WinDirStat-x64.msi`. */
  lemma WinDirStatBasename(u: string)
    requires u == "static/WinDirStat-x64.msi"
    ensures Basename(u) == "WinDirStat-x64.msi"
  {
    var x, f := u[..7], u[7..];
    assert u[0] == 's' && u[1] == 't' && u[6] == '/';
    assert x[0] == u[0] && x[1] == u[1] && x[6] == u[6];
    assert f == "WinDirStat-x64.msi";
    assert HasNoSep(f);
    assert x + f == u;
    BasenameAfterSep(x, f);
  }

  /** WinDirStat from the built-in catalog is an MSI; when its file is in
      `static\` it is installed from there with `msiexec.exe /i`, with no
      download. */
  lemma WinDirStatPlan(t: Tool, folder: string, silent: bool, env: Env)
    requires t == DefaultTools[0]
    requires env.isFile(LocalStaticPath(t.url))
    ensures PlanInstall(t, folder, silent, env).download == None
    ensures PlanInstall(t, folder, silent, env).command ==
              Some(["msiexec.exe", "/i", LocalStaticPath(t.url)] + (if silent then ["/quiet", "/norestart"] else []))
  {
    DefaultKinds();
    LocalStaticPlan(t, folder, silent, env);
    MsiCommand(LocalStaticPath(t.url), silent, t.silentArgs);
  }
}
