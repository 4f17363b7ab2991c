/**
 * The extension list algebra of src/components/ExtensionsDialog.tsx: the fixed catalog, the
 * split of the catalog into installed and installable entries, the search and type filter,
 * and install, uninstall and toggle as transformations of the installed list.
 */
module Extensions {
  import opened Wrappers
  import opened Text

  datatype ExtensionType = Tool | Theme | Language | Integration

  datatype Extension = Extension(
    id: string,
    name: string,
    description: string,
    version: string,
    enabled: bool,
    author: Option<string>,
    icon: Option<string>,
    kind: ExtensionType)

  /** The type buttons: every type, or one of them. */
  datatype TypeFilter = All | Only(kind: ExtensionType)

  // ---------------------------------------------------------------------------
  // Filtering a list of extensions
  // ---------------------------------------------------------------------------

  /** `s.filter(keep)`: the elements kept, in their order. */
  function Filter(s: seq<Extension>, keep: Extension -> bool): (r: seq<Extension>)
    ensures |r| <= |s|
    ensures forall x :: x in r <==> x in s && keep(x)
  {
    if s == [] then [] else (if keep(s[0]) then [s[0]] else []) + Filter(s[1..], keep)
  }

  /** Filtering a concatenation filters each part, so the kept elements keep their order. */
  lemma {:induction false} FilterAppend(a: seq<Extension>, b: seq<Extension>, keep: Extension -> bool)
    ensures Filter(a + b, keep) == Filter(a, keep) + Filter(b, keep)
    decreases |a|
  {
    if a == [] {
      assert a + b == b;
    } else {
      assert (a + b)[1..] == a[1..] + b;
      FilterAppend(a[1..], b, keep);
    }
  }

  /** A filter that keeps every element changes nothing. */
  lemma {:induction false} FilterKeepsAll(s: seq<Extension>, keep: Extension -> bool)
    requires forall i :: 0 <= i < |s| ==> keep(s[i])
    ensures Filter(s, keep) == s
    decreases |s|
  {
    if s != [] {
      FilterKeepsAll(s[1..], keep);
    }
  }

  /** Two filters that agree on every element keep the same elements. */
  lemma {:induction false} FilterCongruent(s: seq<Extension>, keep1: Extension -> bool, keep2: Extension -> bool)
    requires forall i :: 0 <= i < |s| ==> keep1(s[i]) == keep2(s[i])
    ensures Filter(s, keep1) == Filter(s, keep2)
    decreases |s|
  {
    if s != [] {
      FilterCongruent(s[1..], keep1, keep2);
    }
  }

  /** `list.find(e => e.id === id)` is truthy. */
  predicate HasId(list: seq<Extension>, id: string) {
    exists i :: 0 <= i < |list| && list[i].id == id
  }

  // ---------------------------------------------------------------------------
  // The catalog
  // ---------------------------------------------------------------------------

  function CatalogEntry(id: string, name: string, description: string, author: string,
                        icon: string, kind: ExtensionType): Extension {
    Extension(id, name, description, "1.0.0", false, Some(author), Some(icon), kind)
  }

  /** `AVAILABLE_EXTENSIONS`: six entries with distinct ids, all disabled. */
  function Catalog(): (catalog: seq<Extension>)
    ensures |catalog| == 6
    ensures forall i, j :: 0 <= i < j < |catalog| ==> catalog[i].id != catalog[j].id
    ensures forall i :: 0 <= i < |catalog| ==> !catalog[i].enabled
  {
    [ CatalogEntry("prettier-format", "Prettier Formatter", "Auto-format code with Prettier on save",
                   "Nuzantara", "\U{2728}", Tool),
      CatalogEntry("ai-autocomplete", "AI Autocomplete", "Get intelligent code suggestions while typing",
                   "Nuzantara", "\U{1F916}", Tool),
      CatalogEntry("git-integration", "Git Integration", "Basic git operations support",
                   "Nuzantara", "\U{1F500}", Integration),
      CatalogEntry("markdown-preview", "Markdown Preview", "Live preview for markdown files",
                   "Nuzantara", "\U{1F4DD}", Tool),
      CatalogEntry("tokyo-night-theme", "Tokyo Night Theme", "Popular dark theme for the editor",
                   "Community", "\U{1F303}", Theme),
      CatalogEntry("python-support", "Python Support", "Enhanced Python development features",
                   "Nuzantara", "\U{1F40D}", Language) ]
  }

  // ---------------------------------------------------------------------------
  // Installed and installable
  // ---------------------------------------------------------------------------

  /** The test of `installedExtensions`: the catalog has an entry with the id. */
  function InCatalog(): Extension -> bool {
    (e: Extension) => HasId(Catalog(), e.id)
  }

  /** `installedExtensions`: the installed entries whose id the catalog knows, in their order. */
  function InstalledExtensions(extensions: seq<Extension>): (installed: seq<Extension>)
    ensures forall e :: e in installed <==> e in extensions && HasId(Catalog(), e.id)
    ensures |installed| <= |extensions|
    ensures installed == Filter(extensions, InCatalog())
  {
    Filter(extensions, InCatalog())
  }

  /** `availableForInstall`: the catalog entries whose id is not installed, in catalog order. */
  function AvailableForInstall(extensions: seq<Extension>): (available: seq<Extension>)
    ensures forall e :: e in available <==> e in Catalog() && !HasId(extensions, e.id)
  {
    Filter(Catalog(), (e: Extension) => !HasId(extensions, e.id))
  }

  /** The installed list of two runs of entries is that of each run: the entries keep their order. */
  lemma InstalledKeepsOrder(a: seq<Extension>, b: seq<Extension>)
    ensures InstalledExtensions(a + b) == InstalledExtensions(a) + InstalledExtensions(b)
  {
    FilterAppend(a, b, InCatalog());
  }

  /** No id is both installed and offered for installation. */
  lemma InstalledAndAvailableDisjoint(extensions: seq<Extension>)
    ensures forall a, b :: a in AvailableForInstall(extensions) && b in InstalledExtensions(extensions) ==> a.id != b.id
  {
    forall a, b | a in AvailableForInstall(extensions) && b in InstalledExtensions(extensions)
      ensures a.id != b.id
    {
      var i :| 0 <= i < |extensions| && extensions[i] == b;
    }
  }

  /** Every catalog entry is either offered or installed under its id. */
  lemma CatalogCovered(extensions: seq<Extension>, e: Extension)
    requires e in Catalog()
    ensures e in AvailableForInstall(extensions) || HasId(InstalledExtensions(extensions), e.id)
  {
    if e !in AvailableForInstall(extensions) {
      var i :| 0 <= i < |extensions| && extensions[i].id == e.id;
      InstalledById(extensions, i, e);
    }
  }

  lemma InstalledById(extensions: seq<Extension>, i: nat, e: Extension)
    requires i < |extensions| && e in Catalog() && extensions[i].id == e.id
    ensures HasId(InstalledExtensions(extensions), e.id)
  {
    var catalog := Catalog();
    var k :| 0 <= k < |catalog| && catalog[k] == e;
    assert HasId(catalog, extensions[i].id);
    var installed := InstalledExtensions(extensions);
    assert extensions[i] in installed;
    var j :| 0 <= j < |installed| && installed[j] == extensions[i];
  }

  // ---------------------------------------------------------------------------
  // Search and type filter
  // ---------------------------------------------------------------------------

  /** An entry matches when its name or description contains the query, ignoring case, and its type passes. */
  predicate Matches(e: Extension, query: string, filter: TypeFilter)
    ensures Matches(e, query, filter) ==> filter == All || filter == Only(e.kind)
    ensures query == "" && filter == All ==> Matches(e, query, filter)
  {
    assert StartsWith(ToLower(e.name), ToLower(""));
    && (Contains(ToLower(e.name), ToLower(query)) || Contains(ToLower(e.description), ToLower(query)))
    && (filter == All || filter == Only(e.kind))
  }

  /** `filteredAvailable` */
  function FilteredAvailable(extensions: seq<Extension>, query: string, filter: TypeFilter): (shown: seq<Extension>)
    ensures forall e :: e in shown <==> e in AvailableForInstall(extensions) && Matches(e, query, filter)
  {
    Filter(AvailableForInstall(extensions), MatchesWith(query, filter))
  }

  /** The search and type filter as the predicate handed to `filter`. */
  function MatchesWith(query: string, filter: TypeFilter): Extension -> bool {
    (e: Extension) => Matches(e, query, filter)
  }

  /** An empty search with every type selected shows every installable entry. */
  lemma EmptySearchShowsAll(extensions: seq<Extension>)
    ensures FilteredAvailable(extensions, "", All) == AvailableForInstall(extensions)
  {
    var available := AvailableForInstall(extensions);
    forall i | 0 <= i < |available| ensures Matches(available[i], "", All) {
      assert StartsWith(ToLower(available[i].name), ToLower(""));
    }
    FilterKeepsAll(available, MatchesWith("", All));
  }

  /** A type filter shows only entries of that type; its results are among those of `All`. */
  lemma TypeFilterNarrows(extensions: seq<Extension>, query: string, t: ExtensionType)
    ensures forall e :: e in FilteredAvailable(extensions, query, Only(t)) ==>
              e.kind == t && e in FilteredAvailable(extensions, query, All)
  {
    NarrowerFilter(AvailableForInstall(extensions), query, t);
  }

  lemma NarrowerFilter(available: seq<Extension>, query: string, t: ExtensionType)
    ensures forall e :: e in Filter(available, MatchesWith(query, Only(t))) ==>
              e.kind == t && e in Filter(available, MatchesWith(query, All))
  {
  }

  // ---------------------------------------------------------------------------
  // Install, uninstall, toggle
  // ---------------------------------------------------------------------------

  /** `handleInstall`: the entry, enabled, appended at the end; the existing entries unchanged. */
  function Install(extensions: seq<Extension>, extension: Extension): (r: seq<Extension>)
    ensures |r| == |extensions| + 1 && r[..|extensions|] == extensions
    ensures r[|extensions|] == extension.(enabled := true)
  {
    extensions + [extension.(enabled := true)]
  }

  /** The test of `handleUninstall`: the entry has another id. */
  function IdIsNot(extensionId: string): Extension -> bool {
    (e: Extension) => e.id != extensionId
  }

  /** `handleUninstall`: every entry with the id removed, the others kept in order. */
  function Uninstall(extensions: seq<Extension>, extensionId: string): (r: seq<Extension>)
    ensures !HasId(r, extensionId)
    ensures forall e :: e in extensions && e.id != extensionId ==> e in r
    ensures forall e :: e in r ==> e in extensions
    ensures r == Filter(extensions, IdIsNot(extensionId))
  {
    var r := Filter(extensions, IdIsNot(extensionId));
    assert forall i :: 0 <= i < |r| ==> r[i].id != extensionId by {
      forall i | 0 <= i < |r| ensures r[i].id != extensionId {
        assert r[i] in r;
      }
    }
    r
  }

  /** Uninstalling from two runs of entries uninstalls from each: the entries kept stay in their order. */
  lemma UninstallKeepsOrder(a: seq<Extension>, b: seq<Extension>, extensionId: string)
    ensures Uninstall(a + b, extensionId) == Uninstall(a, extensionId) + Uninstall(b, extensionId)
  {
    FilterAppend(a, b, IdIsNot(extensionId));
  }

  /** Installing an extension that was not installed and uninstalling it again restores the list. */
  lemma UninstallUndoesInstall(extensions: seq<Extension>, extension: Extension)
    requires !HasId(extensions, extension.id)
    ensures Uninstall(Install(extensions, extension), extension.id) == extensions
  {
    var keep := IdIsNot(extension.id);
    FilterAppend(extensions, [extension.(enabled := true)], keep);
    FilterKeepsAll(extensions, keep);
    assert Filter([extension.(enabled := true)], keep) == [];
  }

  /** Installing a catalog entry takes it off the installable list and puts it, enabled, on the installed one. */
  lemma InstallMovesEntry(extensions: seq<Extension>, extension: Extension)
    requires extension in Catalog()
    ensures extension !in AvailableForInstall(Install(extensions, extension))
    ensures extension.(enabled := true) in InstalledExtensions(Install(extensions, extension))
  {
    var r := Install(extensions, extension);
    assert r[|extensions|].id == extension.id;
    var k :| 0 <= k < |Catalog()| && Catalog()[k] == extension;
    assert HasId(Catalog(), extension.id);
  }

  /** `handleToggle`: `enabled` set on the entries with the id, every other field and entry kept, same order. */
  function Toggle(extensions: seq<Extension>, extensionId: string, enabled: bool): (r: seq<Extension>)
    ensures |r| == |extensions|
    ensures forall i :: 0 <= i < |r| ==> r[i].id == extensions[i].id
    ensures forall i :: 0 <= i < |r| && extensions[i].id == extensionId ==> r[i] == extensions[i].(enabled := enabled)
    ensures forall i :: 0 <= i < |r| && extensions[i].id != extensionId ==> r[i] == extensions[i]
  {
    seq(|extensions|, i requires 0 <= i < |extensions| =>
      if extensions[i].id == extensionId then extensions[i].(enabled := enabled) else extensions[i])
  }

  /** Toggling changes no id, so what is offered for installation stays the same. */
  lemma ToggleKeepsAvailable(extensions: seq<Extension>, extensionId: string, enabled: bool)
    ensures AvailableForInstall(Toggle(extensions, extensionId, enabled)) == AvailableForInstall(extensions)
  {
    var toggled := Toggle(extensions, extensionId, enabled);
    forall id ensures HasId(toggled, id) == HasId(extensions, id) {
      if HasId(extensions, id) {
        var i :| 0 <= i < |extensions| && extensions[i].id == id;
        assert toggled[i].id == id;
      }
    }
    FilterCongruent(Catalog(), (e: Extension) => !HasId(toggled, e.id), (e: Extension) => !HasId(extensions, e.id));
  }

  /** Toggling twice to the same value is toggling once. */
  lemma ToggleIdempotent(extensions: seq<Extension>, extensionId: string, enabled: bool)
    ensures Toggle(Toggle(extensions, extensionId, enabled), extensionId, enabled) == Toggle(extensions, extensionId, enabled)
  {
  }
}
