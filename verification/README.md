# Security-Toolkit installer: a Dafny model of the install pipeline

The Security-Toolkit installer is a small Windows wizard. It loads a catalog of
tools, lets the user tick security and maintenance tools, and installs the
selection one tool at a time. Each tool is either taken from the project's
`static` folder or downloaded, then run silently or interactively.

This project models the decision logic of `installer/main.py` as pure Dafny
functions and proves what that logic guarantees. The modules are:

- `Manifest` (manifest.dfy) models the tool record and the built-in catalog.
  - It models the three-tier lookup of `load_tools_from_github`: the remote
    `tools.json`, then the local `tools.json`, then the built-in defaults.
  - It models the security and maintenance views.
  - It models the check-box selection made by `goto_stage3`.
- `Installer` (installer.dfy) models `install_tool`:
  - the installer suffix inferred from the URL;
  - the download path;
  - the static, dynamic and unknown branches;
  - the exact `msiexec.exe` or EXE argument vector;
  - the verdict: true exactly when an installer was started and exited with 0.
- `Batch` (batch.dfy) models the loop of `install_selected_apps_thread`. Every
  tool is attempted in order and its name is appended to the successful list
  or the failed list. A raised exception counts as a failure, and the loop
  never stops early.
- `WinPath` (winpath.dfy) models the Windows `os.path` functions the installer
  calls, `basename` and `join`, as Python's `ntpath` defines them, together
  with `splitroot`, which both of them use.
  Both `\` and `/` are separators, and `join` inserts `\`.
- `Flags` (flags.dfy) holds the two silent-flag strings the installer knows,
  the default EXE flags and Malwarebytes' own, and how each splits into words.
- `Text` (text.dfy) models the string primitives: ASCII `lower`, `replace` of
  one character, `endswith`, and `str.split()` on Python's whitespace set.
- `Sequences` (sequences.dfy) holds list comprehension with a condition
  (`Filter`) and order-preserving embeddings (`Embeds`). `Wrappers`
  (wrappers.dfy) holds `Option` and `Result`.

All I/O is passed in as oracle functions:

- `ManifestIo` covers the manifest lookup. `fetch` models the HTTP request and
  JSON parse, returning `None` on any error. `fileExists` models
  `os.path.exists`. `read` models opening and parsing the local file.
- `Env` covers one tool's install. `isFile` models `os.path.isfile`.
  `download` models `download_tool`, which returns false on any error. `run`
  models `subprocess.run`, returning an exit code or a launch failure.
- The batch takes an `install` oracle per position, or the modelled
  `install_tool` with one `Env` per position.

An empty catalog is possible. An empty list from the remote manifest or from
the local `tools.json` is returned as is (installer/main.py:118-134). The four
built-in tools are used only when both of those fail (installer/main.py:138-166).
So `LoadCatalog` can return an empty catalog, but only from a manifest
(`c.tools == [] ==> c.source != Defaults`). `OfflineCatalog` states that with
both manifests unavailable the catalog is the four built-in tools.

## Model

| member | source | states |
|---|---|---|
| Manifest.LoadCatalog | installer/main.py:115-169 | The remote manifest is used, as fetched, exactly when it can be fetched and parsed; the local `tools.json` is used, as read, exactly when the remote one fails and the file exists and parses; the built-in catalog is used only as the last resort; an empty catalog can only come from a manifest, never from the defaults |
| Manifest.LoadCatalogIsFirstAvailable | installer/main.py:115-169 | The lookup is "first available wins" over the remote manifest, then the local `tools.json` (only when it exists), then the four built-in tools |
| Manifest.OfflineCatalog | installer/main.py:127-169 | With no remote manifest, and the local file missing or unreadable, the catalog is exactly the built-in four tools |
| Manifest.DefaultToolsShape | installer/main.py:138-169 | The built-in catalog has unique names and contains both a static and a dynamic tool; only Malwarebytes carries its own silent flags |
| Manifest.DefaultViews | installer/main.py:138-175 | Over the built-in catalog, the security view is Malwarebytes alone and the maintenance view is the other three tools, in order |
| Manifest.InCategory | installer/main.py:174-175 | A view holds only tools whose lower-cased category is the wanted one, and holds every such catalog tool |
| Manifest.CategoryIgnoresCase | installer/main.py:174-175 | A tool has a lower-case category word exactly when its category spells that word in any mix of cases |
| Manifest.InCategoryOrder | installer/main.py:174-175 | A view is the catalog's matching tools in catalog order: it embeds into the catalog at increasing positions, and those positions are exactly the matching ones |
| Manifest.ViewsPartition | installer/main.py:174-175 | No tool is in both views; a catalog tool of any other category is in neither |
| Manifest.Checked | installer/main.py:307-315 | Every picked tool is ticked and comes from the view; every ticked tool of the view is picked |
| Manifest.SelectTools | installer/main.py:304-320 | The selection is refused exactly when no security or maintenance tool is ticked; an accepted selection is non-empty |
| Manifest.SelectionOrder | installer/main.py:304-315 | An accepted selection is the ticked security tools followed by the ticked maintenance tools; each part embeds into the catalog in order, at exactly the ticked positions of its category |
| Sequences.Filter | installer/main.py:174-175 | A conditional comprehension keeps only elements satisfying the condition, keeps all of them, and is no longer than its input |
| Sequences.FilterEmbeds | installer/main.py:174-175 | A conditional comprehension keeps its elements in input order, at exactly the positions where the condition holds |
| Sequences.FilterTwiceEmbeds | installer/main.py:307-315 | Filtering a filtered list keeps input order, at exactly the positions satisfying both conditions |
| Text.LowerMatches | installer/main.py:46 | Lower-casing a string gives a lower-case word exactly when the string spells that word with any mix of upper- and lower-case letters |
| Text.ReplaceChar | installer/main.py:56 | Replacing spaces keeps the length, turns every space into `_` and leaves every other character alone |
| Text.Words | installer/main.py:99 | `str.split()` returns only non-empty tokens without whitespace |
| Text.WordsKeepContent | installer/main.py:99 | The tokens of `str.split()`, concatenated, are the input with its whitespace removed |
| Text.WordsOfJoin | installer/main.py:99 | Splitting a space-joined list of tokens gives back exactly those tokens, in order |
| Text.WordsSkipBlank | installer/main.py:99 | A leading run of whitespace yields no token: the split of the rest is unchanged |
| Text.WordsOfSpaced | installer/main.py:99 | `str.split()` cuts exactly at whitespace runs: tokens separated by any non-empty whitespace runs, with any leading and trailing whitespace, split back into exactly those tokens, in order |
| WinPath.SplitRoot | installer/main.py:56-61 | A path splits into drive, root and rest that concatenate back to it; the root is empty or one separator; a path starting with two separators gets the UNC split, and a path whose second character is `:` (first not a separator) has that `X:` prefix as drive, with a root exactly when a separator follows it; any other path has no drive |
| WinPath.SplitUnc | installer/main.py:56-61 | A UNC drive covers the server and share names: after the two leading separators (or after `\\?\UNC\`) it holds exactly one separator, and the next separator is the root; without a second separator the whole path is the drive |
| WinPath.JoinOwnShare | installer/main.py:56 | Joining onto a folder its own bare drive (a UNC share or `X:`), when the folder has a root after that share and a non-empty last part not ending in a separator, keeps the folder and adds one `\` |
| WinPath.JoinSameShare | installer/main.py:56 | `//a/b.msi/x` splits into drive `//a/b.msi`, root `/` and rest `x`, and joining the bare share `//a/b.msi` onto it gives `//a/b.msi/x\` |
| WinPath.Basename | installer/main.py:61 | The base name is the whole separator-free tail of the path after its drive and root: it ends the path, contains no separator, and is preceded by a separator unless it is all of the part after the drive and root |
| WinPath.Join | installer/main.py:56-61 | A join always ends with the second component's part after its drive and root; a second component with a drive and a root, or with a drive other than the first's, replaces the first entirely; a second component with a root but no drive keeps the first's drive (`join("C:\\x", "\\y")` is `C:\y`) |
| WinPath.JoinSameDrive | installer/main.py:56-61 | A second component with a drive equal to the first's up to case, and no root, continues the first's root and path (one `\` added after a path not ending in a separator) under the second's spelling of the drive: `join("C:\\x", "c:y")` is `c:\x\y`; with `Join`'s own clauses and `JoinRelative`, every branch of `ntpath.join` is stated |
| WinPath.JoinRelative | installer/main.py:56 | Joining a relative name appends it to the folder, with one `\` inserted exactly when the folder is non-empty, does not end in a separator and is not a bare drive letter `X:`; a bare UNC share does get the `\` when something is appended |
| WinPath.JoinUnderDir | installer/main.py:61 | Joining a relative name under a relative folder that does not end in a separator gives `folder\name` |
| WinPath.BasenameOfJoin | installer/main.py:56-61 | The base name of a folder joined with a plain file name is that file name |
| Installer.InferExt | installer/main.py:48-54 | The suffix is `.msi` exactly when the URL ends in `.msi`, and `.exe` for every other URL |
| Installer.FileName | installer/main.py:56 | The download file name is the tool name with spaces turned into `_`, followed by the four-character suffix; it contains no space |
| Installer.PlanInstall | installer/main.py:37-113 | An unknown type is refused before any I/O. A static tool found in `static\` is installed from there without a download. Otherwise exactly one download is made: the project's copy for a static tool, the tool's URL for a dynamic one, always to the download path. A failed download stops the install. The command depends only on the suffix, the path, the silent flag and `silent_args`. The verdict is true exactly when an installer ran and exited with 0 |
| Installer.KindIgnoresCase | installer/main.py:46-84 | A tool is static exactly when its type spells `static` in any mix of cases, dynamic exactly when it spells `dynamic`, and unknown otherwise |
| Installer.Command | installer/main.py:86-99 | An MSI command starts `msiexec.exe /i <path>`; an EXE command starts with the path; when not silent nothing follows |
| Installer.StaticUrlLayout | installer/main.py:69 | The fallback URL is the repository's raw `static/` folder followed by the whole separator-free tail of the record's URL after its drive and root: that tail is everything after the last separator |
| Installer.ExtensionPicksFileSuffix | installer/main.py:48-56 | The download path ends in `.msi` when the URL does and in `.exe` otherwise, for any folder and any tool name that does not start with two separators |
| Installer.UncNameLosesSuffix | installer/main.py:56 | A tool named `//a/b` with an `.msi` URL, downloaded to the folder `//a/b.msi/x`, gets a download path that does not end in `.msi` |
| Installer.ExtensionPicksMechanism | installer/main.py:88-95 | A `.msi` URL yields `msiexec.exe /i <path>`; any other URL runs the downloaded file itself |
| Installer.DownloadFileName | installer/main.py:56 | The base name of the download path is the tool's file name, for a drive or relative folder |
| Installer.LocalStaticLayout | installer/main.py:61 | A static tool's local copy is `static\` followed by the URL's base name; when that base name has a drive (`C:a.exe`), it replaces `static` and is the path itself |
| Flags.DefaultSilentWords | installer/main.py:98-99 | The default silent flags split into `/S`, `/silent`, `/quiet` |
| Installer.MsiCommand | installer/main.py:88-92 | The MSI command is `msiexec.exe /i <path>`, with `/quiet /norestart` exactly when silent |
| Installer.ExeCommandInteractive | installer/main.py:93-95 | When not silent, the EXE command is the path alone, whatever `silent_args` holds |
| Installer.ExeCommandDefaultFlags | installer/main.py:96-99 | When silent with no `silent_args`, the EXE gets `/S /silent /quiet` |
| Installer.ExeCommandSilent | installer/main.py:96-99 | When silent with `silent_args`, the EXE gets that string's whitespace-split tokens |
| Installer.ExeCommandOverride | installer/main.py:96-99 | When silent with `silent_args` spelled as space-joined flags, the EXE gets exactly those flags |
| Installer.FetchedPlan | installer/main.py:75-99 | A dynamic tool whose download works is fetched from its URL to the download path and run from there |
| Installer.LocalStaticPlan | installer/main.py:59-66 | A static tool present in `static\` is run from there with no download |
| Installer.DefaultKinds | installer/main.py:138-169 | WinDirStat is a static MSI at `static/WinDirStat-x64.msi`; Malwarebytes is a dynamic EXE carrying its own silent flags |
| Flags.MalwarebytesWords | installer/main.py:160-166 | Malwarebytes' own flags split into `/VERYSILENT`, `/SUPPRESSMSGBOXES`, `/NORESTART` |
| Installer.MalwarebytesCommandLine | installer/main.py:96-99 | A silent Malwarebytes install runs its file with its own three flags, not the defaults |
| Installer.MalwarebytesSilent | installer/main.py:75-99 | A silent Malwarebytes install downloads the vendor URL to the download path and runs it with its own three flags |
| Installer.WinDirStatBasename | installer/main.py:141-146 | The base name of the built-in WinDirStat URL `static/WinDirStat-x64.msi` is `WinDirStat-x64.msi` |
| Installer.WinDirStatPlan | installer/main.py:59-92 | WinDirStat present in `static\` is installed from there through `msiexec.exe /i`, with `/quiet /norestart` exactly when silent, and no download |
| Batch.Tally | installer/main.py:341-351 | After `n` tools, the two lists hold `n` names between them |
| Batch.Summarize | installer/main.py:341-351 | After the batch, the two lists hold one name per tool |
| Batch.TallyOrder | installer/main.py:341-351 | Each list is the batch's names at the successful or failed positions, in batch order |
| Batch.PositionsExact | installer/main.py:344-351 | A position is among the successful positions exactly when its attempt returned true, and among the failed ones exactly when it returned false or raised |
| Batch.SummarizeOrder | installer/main.py:341-351 | Over the whole batch, each list keeps batch order, and each position is in exactly the list its own attempt decides |
| Batch.TallyNames | installer/main.py:341-351 | Together the two lists hold exactly the names of the tools attempted so far, as a multiset |
| Batch.SummarizeNames | installer/main.py:341-351 | Together the two lists hold exactly the batch's names: none is lost and none is listed twice |
| Batch.TallyPrefix | installer/main.py:341-351 | How the first `n` tools are listed depends only on their own attempts |
| Batch.TallyExtends | installer/main.py:341-351 | The lists are only appended to: an earlier state is a prefix of a later one, and each later tool adds exactly one entry |
| Batch.RunBatch | installer/main.py:332-351 | The loop's two lists are those of the batch outcome: every tool is attempted in order, and an exception counts as a failure |
| Batch.PipelineOutcome | installer/main.py:341-351 | With the modelled `install_tool`, a tool is listed as successful exactly when its installer started and exited with 0, and as failed otherwise, in batch order |
| Batch.SingleDynamicTool | installer/main.py:341-351 | A one-tool batch whose dynamic download works lists the tool as successful for exit code 0 and as failed for any other status |

## Left out

- `download_tool` (lines 21-35) is not modelled. It becomes the `download` oracle, which returns true or false; the directory creation, HTTP streaming and file writes are I/O.
- `subprocess.run` and `os.path.isfile` become the `run` and `isFile` oracles. A `CalledProcessError` is an exit code other than 0; any other exception from launching is `LaunchFailed`.
- The remote fetch and JSON parsing become the `fetch` and `read` oracles, which yield a list of typed tool records. A manifest whose JSON is not a list of records is not modelled.
- The tool record is typed, so a missing key is not modelled. A missing `url` or `type` makes `install_tool` raise `KeyError` (lines 45-46). The loop's `except` catches it (lines 349-351), so in the batch it is the `Raised` attempt and counts as a failure.
- A missing `name` is different. The loop reads `tool['name']` at line 342, before its `try`, so the `KeyError` would end the installing thread rather than count as a failure. Such a record never reaches the batch: the check-box set-up reads every tool's name at start-up (lines 215 and 218).
- A `silent_args` key that is present but JSON `null` is not modelled: `Option` only distinguishes present from absent.
- Python's `str.lower` is modelled on ASCII only, both for the installer's own comparisons and for `WinPath.Join`'s case-insensitive drive comparison (`ntpath.join` lower-cases both drives). This is exact for the comparisons the installer makes with `static`, `dynamic`, `security` and `maintenance`, apart from non-ASCII characters that lower-case to ASCII letters, such as the Kelvin sign. For drives, two drive letters or UNC share names that differ only in the case of a non-ASCII letter count as different drives in the model but as the same drive in Python.
- `os.path` is modelled as Python 3.12's `ntpath`, the module used on Windows. POSIX `posixpath` behaviour is not modelled.
- The Tk user interface is not modelled: windows, frames, toggles, the folder chooser and the completion message box. The check boxes are the `securityTicked` and `maintenanceTicked` inputs, keyed by tool name as the variable maps are. The silent flag and the download folder are plain parameters.
- The background thread and its completion polling (lines 362-390) are not modelled. The empty-selection warning in `install_selected_apps` repeats the check `SelectTools` already models.
- Every `print` is not modelled, because the log output carries no decision.
- The desktop-shortcut option is not modelled, because the code never acts on it.
- `installer/install.py` is not part of this model: it is an earlier Tk layout of the same wizard, with no install logic.
- WinPath.BasenameOfJoin: only folders that do not start with a separator are covered (drive paths such as `C:\Users\me\Downloads`, and relative paths). A UNC folder is left out, because its share part changes what `basename` sees.
- Installer.ExtensionPicksFileSuffix: not stated for a tool name that starts with two separators. Such a file name reads as a UNC drive, and joined under a folder on the same share the suffix is lost (`UncNameLosesSuffix`).
- Installer.DownloadFileName: stated under the same folder restriction as `BasenameOfJoin`, and for tool names without separators or a drive colon.
- Installer.WinDirStatPlan: states the command in terms of `LocalStaticPath`. `LocalStaticLayout` and `WinDirStatBasename` give that path's shape separately, not as one literal.
