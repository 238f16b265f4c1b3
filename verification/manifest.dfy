/** The tool catalog: the tool record, the three-tier manifest lookup of
    `load_tools_from_github`, the security/maintenance views and the
    check-box selection collected when leaving the selection stage. */
module Manifest {
  import opened Wrappers
  import opened Text
  import opened Sequences
  import opened Flags

  /** One manifest record. `kind` is the raw `type` string and
      `silentArgs` the optional `silent_args` key. */
  datatype Tool = Tool(name: string, url: string, kind: string, category: string, silentArgs: Option<string>)

  const GitHubRawBase: string := "https://raw.githubusercontent.com/SamuelHughes25/Security-Toolkit/main"
  const ToolsJsonUrl: string := GitHubRawBase + "/tools.json"
  const LocalToolsJson: string := "tools.json"

  /** The built-in catalog used when neither manifest can be read. */
  const DefaultTools: seq<Tool> := [
    Tool("WinDirStat", "static/WinDirStat-x64.msi", "static", "Maintenance", None),
    Tool("WinRAR", "static/winrar-x64.exe", "static", "Maintenance", None),
    Tool("VLC Media Player", "static/vlc-3.0.18.exe", "static", "Maintenance", None),
    Tool("Malwarebytes", "https://data-cdn.mbamupdates.com/web/mb-windows/MBSetup.exe", "dynamic", "Security",
         Some(MalwarebytesSilentArgs))
  ]

  /** Where the catalog came from. */
  datatype Source = Remote | LocalFile | Defaults

  datatype Catalog = Catalog(source: Source, tools: seq<Tool>)

  /** The I/O the lookup sits on: fetching and parsing a URL (`None` for any
      network, status or JSON error), whether a local file exists, and
      reading and parsing it (`None` for any I/O or JSON error). */
  datatype ManifestIo = ManifestIo(
    fetch: string -> Option<seq<Tool>>,
    fileExists: string -> bool,
    read: string -> Option<seq<Tool>>)

  /** The first available value among `tiers`, or `default`. */
  function FirstAvailable<T>(tiers: seq<Option<T>>, default: T): T
    decreases |tiers|
  {
    if tiers == [] then default
    else if tiers[0].Some? then tiers[0].value
    else FirstAvailable(tiers[1..], default)
  }

  /** `load_tools_from_github`: the remote manifest, else the local
      `tools.json` when it exists and parses, else the built-in catalog. */
  function LoadCatalog(io: ManifestIo): (c: Catalog)
    ensures c.source == Remote <==> io.fetch(ToolsJsonUrl).Some?
    ensures c.source == Remote ==> c.tools == io.fetch(ToolsJsonUrl).value
    ensures c.source == LocalFile <==> io.fetch(ToolsJsonUrl).None? && io.fileExists(LocalToolsJson) && io.read(LocalToolsJson).Some?
    ensures c.source == LocalFile ==> c.tools == io.read(LocalToolsJson).value
    ensures c.source == Defaults ==> c.tools == DefaultTools
    ensures c.tools == [] ==> c.source != Defaults
  {
    match io.fetch(ToolsJsonUrl)
    case Some(tools) => Catalog(Remote, tools)
    case None =>
      if io.fileExists(LocalToolsJson) then
        match io.read(LocalToolsJson)
        case Some(tools) => Catalog(LocalFile, tools)
        case None => Catalog(Defaults, DefaultTools)
      else Catalog(Defaults, DefaultTools)
  }

  /** The lookup is "first available wins" over the remote manifest and the
      local file (which counts only when it exists), ending in the built-in
      catalog. */
  lemma LoadCatalogIsFirstAvailable(io: ManifestIo)
    ensures LoadCatalog(io).tools == FirstAvailable(
      [io.fetch(ToolsJsonUrl), if io.fileExists(LocalToolsJson) then io.read(LocalToolsJson) else None],
      DefaultTools)
  {
    var tiers := [io.fetch(ToolsJsonUrl), if io.fileExists(LocalToolsJson) then io.read(LocalToolsJson) else None];
    assert tiers[1..][1..] == [];
    assert FirstAvailable(tiers[1..][1..], DefaultTools) == DefaultTools;
  }

  /** When neither manifest is available the installer still has a catalog,
      and it is the built-in one whatever the local file holds. */
  lemma OfflineCatalog(io: ManifestIo)
    requires io.fetch(ToolsJsonUrl).None?
    requires !io.fileExists(LocalToolsJson) || io.read(LocalToolsJson).None?
    ensures LoadCatalog(io) == Catalog(Defaults, DefaultTools)
    ensures |LoadCatalog(io).tools| == 4
  {
  }

  /** The built-in catalog has unique names, holds both a static and a
      dynamic tool, and only the Malwarebytes record overrides the silent
      flags. */
  lemma DefaultToolsShape()
    ensures forall i, j :: 0 <= i < j < |DefaultTools| ==> DefaultTools[i].name != DefaultTools[j].name
    ensures exists i :: 0 <= i < |DefaultTools| && DefaultTools[i].kind == "static"
    ensures exists i :: 0 <= i < |DefaultTools| && DefaultTools[i].kind == "dynamic"
    ensures forall i :: 0 <= i < |DefaultTools| ==> (DefaultTools[i].silentArgs.Some? <==> DefaultTools[i].name == "Malwarebytes")
  {
    assert DefaultTools[0].kind == "static";
    assert DefaultTools[3].kind == "dynamic";
  }

  predicate HasCategory(t: Tool, wanted: string) {
    Lower(t.category) == wanted
  }

  function CategoryIs(wanted: string): Tool -> bool {
    t => HasCategory(t, wanted)
  }

  /** The category is matched without regard to case: `Security`,
      `SECURITY` and `security` all select the security view. */
  lemma CategoryIgnoresCase(t: Tool, wanted: string)
    requires IsLowerWord(wanted)
    ensures HasCategory(t, wanted) <==> EqualsIgnoringCase(t.category, wanted)
  {
    LowerMatches(t.category, wanted);
  }

  /** The tools whose lower-cased category is `wanted`, in catalog order. */
  function InCategory(tools: seq<Tool>, wanted: string): (r: seq<Tool>)
    ensures forall i :: 0 <= i < |r| ==> HasCategory(r[i], wanted) && r[i] in tools
    ensures forall i :: 0 <= i < |tools| && HasCategory(tools[i], wanted) ==> tools[i] in r
  {
    Filter(tools, CategoryIs(wanted))
  }

  function SecurityTools(tools: seq<Tool>): seq<Tool> {
    InCategory(tools, "security")
  }

  function MaintenanceTools(tools: seq<Tool>): seq<Tool> {
    InCategory(tools, "maintenance")
  }

  /** A category view keeps catalog order and holds exactly the catalog
      positions whose category matches. */
  lemma InCategoryOrder(tools: seq<Tool>, wanted: string) returns (idx: seq<nat>)
    ensures Embeds(InCategory(tools, wanted), tools, idx)
    ensures forall i :: 0 <= i < |tools| ==> (HasCategory(tools[i], wanted) <==> i in idx)
  {
    idx := FilterEmbeds(tools, CategoryIs(wanted));
  }

  /** No tool is in both views, and a tool of any other category is in
      neither. */
  lemma ViewsPartition(tools: seq<Tool>, t: Tool)
    ensures !(t in SecurityTools(tools) && t in MaintenanceTools(tools))
    ensures t in tools && !HasCategory(t, "security") && !HasCategory(t, "maintenance")
      ==> t !in SecurityTools(tools) && t !in MaintenanceTools(tools)
  {
    if t in SecurityTools(tools) {
      var i :| 0 <= i < |SecurityTools(tools)| && SecurityTools(tools)[i] == t;
    }
    if t in MaintenanceTools(tools) {
      var i :| 0 <= i < |MaintenanceTools(tools)| && MaintenanceTools(tools)[i] == t;
    }
  }

  lemma DefaultCategories()
    ensures forall i :: 0 <= i < 3 ==> DefaultTools[i].category == "Maintenance"
    ensures DefaultTools[3].category == "Security"
    ensures Lower("Maintenance") == "maintenance" && Lower("Security") == "security"
  {
  }

  /** The views of a four-tool catalog whose first three tools are
      maintenance tools and whose last is a security tool. */
  lemma ViewsOfFour(d: seq<Tool>)
    requires |d| == 4
    requires forall i :: 0 <= i < 3 ==> HasCategory(d[i], "maintenance") && !HasCategory(d[i], "security")
    requires HasCategory(d[3], "security") && !HasCategory(d[3], "maintenance")
    ensures SecurityTools(d) == [d[3]]
    ensures MaintenanceTools(d) == d[..3]
  {
    var sec := CategoryIs("security");
    var maint := CategoryIs("maintenance");
    assert !sec(d[0]) && !sec(d[1]) && !sec(d[2]) && sec(d[3]);
    assert maint(d[0]) && maint(d[1]) && maint(d[2]) && !maint(d[3]);
    FilterOfFour(d, sec);
    FilterOfFour(d, maint);
    assert d[..3] == [d[0]] + ([d[1]] + [d[2]]);
  }

  /** The built-in catalog offers Malwarebytes under security and the other
      three under maintenance. */
  lemma DefaultViews()
    ensures SecurityTools(DefaultTools) == [DefaultTools[3]]
    ensures MaintenanceTools(DefaultTools) == DefaultTools[..3]
  {
    DefaultCategories();
    ViewsOfFour(DefaultTools);
  }

  datatype SelectionError = NoSelection

  function TickedBy(ticked: string -> bool): Tool -> bool {
    (t: Tool) => ticked(t.name)
  }

  /** The tools of `view` whose check box (keyed by tool name) is ticked. */
  function Checked(view: seq<Tool>, ticked: string -> bool): (r: seq<Tool>)
    ensures forall i :: 0 <= i < |r| ==> ticked(r[i].name) && r[i] in view
    ensures forall i :: 0 <= i < |view| && ticked(view[i].name) ==> view[i] in r
  {
    Filter(view, TickedBy(ticked))
  }

  lemma CheckedEmpty(view: seq<Tool>, ticked: string -> bool)
    ensures Checked(view, ticked) == [] <==> forall i :: 0 <= i < |view| ==> !ticked(view[i].name)
  {
    var r := Checked(view, ticked);
    if r != [] {
      assert r[0] in view;
      var j :| 0 <= j < |view| && view[j] == r[0];
    }
  }

  /** No box ticked among the tools of one category. */
  ghost predicate NoneTicked(tools: seq<Tool>, wanted: string, ticked: string -> bool) {
    forall i :: 0 <= i < |tools| && HasCategory(tools[i], wanted) ==> !ticked(tools[i].name)
  }

  lemma CheckedViewEmpty(tools: seq<Tool>, wanted: string, ticked: string -> bool)
    ensures Checked(InCategory(tools, wanted), ticked) == [] <==> NoneTicked(tools, wanted, ticked)
  {
    var view := InCategory(tools, wanted);
    CheckedEmpty(view, ticked);
    if !NoneTicked(tools, wanted, ticked) {
      var i :| 0 <= i < |tools| && HasCategory(tools[i], wanted) && ticked(tools[i].name);
      assert tools[i] in view;
    }
  }

  /** `goto_stage3`: ticked security tools, then ticked maintenance tools,
      each in catalog order; an empty selection is refused. The two
      check-box maps are separate, each keyed by tool name. */
  function SelectTools(tools: seq<Tool>, securityTicked: string -> bool, maintenanceTicked: string -> bool)
    : (r: Result<seq<Tool>, SelectionError>)
    ensures r.Failure? <==> NoneTicked(tools, "security", securityTicked) && NoneTicked(tools, "maintenance", maintenanceTicked)
    ensures r.Success? ==> |r.value| > 0
  {
    var picked := Checked(SecurityTools(tools), securityTicked) + Checked(MaintenanceTools(tools), maintenanceTicked);
    CheckedViewEmpty(tools, "security", securityTicked);
    CheckedViewEmpty(tools, "maintenance", maintenanceTicked);
    if picked == [] then Failure(NoSelection) else Success(picked)
  }

  /** A selection is the ticked security tools followed by the ticked
      maintenance tools: the first `k` entries sit at increasing catalog
      positions `security`, which are exactly the ticked security tools'
      positions, and likewise the rest for maintenance. */
  lemma SelectionOrder(tools: seq<Tool>, securityTicked: string -> bool, maintenanceTicked: string -> bool)
    returns (k: nat, security: seq<nat>, maintenance: seq<nat>)
    requires SelectTools(tools, securityTicked, maintenanceTicked).Success?
    ensures var v := SelectTools(tools, securityTicked, maintenanceTicked).value;
      && k <= |v|
      && Embeds(v[..k], tools, security)
      && Embeds(v[k..], tools, maintenance)
      && (forall i :: 0 <= i < |tools| ==>
            (HasCategory(tools[i], "security") && securityTicked(tools[i].name) <==> i in security))
      && (forall i :: 0 <= i < |tools| ==>
            (HasCategory(tools[i], "maintenance") && maintenanceTicked(tools[i].name) <==> i in maintenance))
  {
    var a := Checked(SecurityTools(tools), securityTicked);
    var b := Checked(MaintenanceTools(tools), maintenanceTicked);
    var v := SelectTools(tools, securityTicked, maintenanceTicked).value;
    assert v == a + b;
    k := |a|;
    assert v[..k] == a && v[k..] == b;
    security := FilterTwiceEmbeds(tools, CategoryIs("security"), TickedBy(securityTicked));
    maintenance := FilterTwiceEmbeds(tools, CategoryIs("maintenance"), TickedBy(maintenanceTicked));
  }
}
