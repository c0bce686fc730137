/**
 * The build step that turns the Chrome (Manifest V3) manifest into the
 * Firefox (Manifest V2) one: host permissions join the permissions, the
 * action becomes a browser action, the service worker a background script,
 * the options page an options UI opened in a tab, and a fixed add-on id is
 * added. Reading and writing the files is not modelled.
 */
module FirefoxManifest {
  import opened Wrappers
  import opened Values

  const DefaultPopup: string := "pages/popup/index.html"
  const DefaultBackground: string := "background/index.js"
  const DefaultOptions: string := "pages/options/index.html"
  const GeckoId: string := "music-x1@izumiz.dev"
  const GeckoMinVersion: string := "58.0"

  datatype Action = Action(default_popup: Option<string>)
  datatype ServiceWorker = ServiceWorker(service_worker: Option<string>)

  /** The fields of the Chrome manifest the conversion reads; None is an absent field. */
  datatype ChromeManifest = ChromeManifest(
    name: Option<Value>, version: Option<Value>, description: Option<Value>, icons: Option<Value>,
    permissions: Option<seq<string>>, host_permissions: Option<seq<string>>,
    action: Option<Action>, background: Option<ServiceWorker>,
    content_scripts: Option<Value>, options_page: Option<string>)

  datatype BrowserAction = BrowserAction(default_popup: string)
  datatype BackgroundScripts = BackgroundScripts(scripts: seq<string>)
  datatype OptionsUi = OptionsUi(page: string, open_in_tab: bool)
  datatype Gecko = Gecko(id: string, strict_min_version: string)

  datatype Manifest = Manifest(
    name: Option<Value>, version: Option<Value>, description: Option<Value>, icons: Option<Value>,
    permissions: seq<string>, browser_action: BrowserAction, background: BackgroundScripts,
    content_scripts: Option<Value>, options_ui: OptionsUi, gecko: Gecko, manifest_version: int)

  /** `s || fallback` for an optional string: absent and empty both fall back. */
  function OrElse(s: Option<string>, fallback: string): (r: string)
    ensures r == fallback <==> s.None? || s.value == "" || s.value == fallback
    ensures r != fallback ==> s == Some(r)
  {
    if s.Some? && s.value != "" then s.value else fallback
  }

  /** `list || []`. */
  function ListOrEmpty(l: Option<seq<string>>): (r: seq<string>)
    ensures l.Some? ==> r == l.value
    ensures l.None? ==> r == []
  {
    if l.Some? then l.value else []
  }

  function PopupOf(m: ChromeManifest): Option<string> {
    if m.action.Some? then m.action.value.default_popup else None
  }

  function ServiceWorkerOf(m: ChromeManifest): Option<string> {
    if m.background.Some? then m.background.value.service_worker else None
  }

  /** `generateFirefoxManifest`, without the file input and output. */
  function GenerateFirefoxManifest(m: ChromeManifest): (f: Manifest)
    ensures f.manifest_version == 2
    ensures f.gecko == Gecko(GeckoId, GeckoMinVersion)
    ensures f.options_ui.open_in_tab
    ensures (f.name, f.version, f.description, f.icons, f.content_scripts)
         == (m.name, m.version, m.description, m.icons, m.content_scripts)
    ensures |f.permissions| == |ListOrEmpty(m.permissions)| + |ListOrEmpty(m.host_permissions)|
    ensures forall i :: 0 <= i < |ListOrEmpty(m.permissions)| ==> f.permissions[i] == ListOrEmpty(m.permissions)[i]
    ensures forall i :: 0 <= i < |ListOrEmpty(m.host_permissions)| ==>
      f.permissions[|ListOrEmpty(m.permissions)| + i] == ListOrEmpty(m.host_permissions)[i]
    ensures f.browser_action.default_popup != "" && f.options_ui.page != ""
    ensures |f.background.scripts| == 1 && f.background.scripts[0] != ""
    ensures PopupOf(m).Some? && PopupOf(m).value != "" ==> f.browser_action.default_popup == PopupOf(m).value
    ensures ServiceWorkerOf(m).Some? && ServiceWorkerOf(m).value != "" ==> f.background.scripts == [ServiceWorkerOf(m).value]
    ensures m.options_page.Some? && m.options_page.value != "" ==> f.options_ui.page == m.options_page.value
    ensures PopupOf(m).None? || PopupOf(m).value == "" ==> f.browser_action.default_popup == DefaultPopup
    ensures ServiceWorkerOf(m).None? || ServiceWorkerOf(m).value == "" ==> f.background.scripts == [DefaultBackground]
    ensures m.options_page.None? || m.options_page.value == "" ==> f.options_ui.page == DefaultOptions
  {
    Manifest(
      m.name, m.version, m.description, m.icons,
      ListOrEmpty(m.permissions) + ListOrEmpty(m.host_permissions),
      BrowserAction(OrElse(PopupOf(m), DefaultPopup)),
      BackgroundScripts([OrElse(ServiceWorkerOf(m), DefaultBackground)]),
      m.content_scripts,
      OptionsUi(OrElse(m.options_page, DefaultOptions), true),
      Gecko(GeckoId, GeckoMinVersion),
      2)
  }

  /** A Chrome manifest with the same meaning as a generated Firefox one: every permission plain, nothing left to default. */
  function ChromeOf(f: Manifest): ChromeManifest {
    ChromeManifest(
      f.name, f.version, f.description, f.icons,
      Some(f.permissions), None,
      Some(Action(Some(f.browser_action.default_popup))),
      Some(ServiceWorker(if f.background.scripts != [] then Some(f.background.scripts[0]) else None)),
      f.content_scripts, Some(f.options_ui.page))
  }

  /** A generated manifest loses nothing the conversion produced: converting it back and again gives it unchanged. */
  lemma GenerateIsStable(m: ChromeManifest)
    ensures GenerateFirefoxManifest(ChromeOf(GenerateFirefoxManifest(m))) == GenerateFirefoxManifest(m)
  {
    var f := GenerateFirefoxManifest(m);
    assert ListOrEmpty(Some(f.permissions)) + ListOrEmpty(None) == f.permissions;
  }

  /** Where the host permissions go: a permission is granted in Firefox iff Chrome listed it in either list. */
  lemma PermissionsAreUnion(m: ChromeManifest, p: string)
    ensures p in GenerateFirefoxManifest(m).permissions <==>
      (m.permissions.Some? && p in m.permissions.value) || (m.host_permissions.Some? && p in m.host_permissions.value)
  {
    var a := ListOrEmpty(m.permissions);
    var b := ListOrEmpty(m.host_permissions);
    assert GenerateFirefoxManifest(m).permissions == a + b;
    assert p in a + b <==> p in a || p in b;
  }
}
