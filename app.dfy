/**
 * The dashboard's top-level component: which environment is selected, which
 * extension is shown, which tab is open, and what one render shows.
 */
module App {

  import opened Wrappers
  import opened Records
  import opened DiagnosticsTypes
  import opened Extensions
  import opened UseDiagnostics

  const Public := "https://hosting.portal.azure.net/api/diagnostics"
  const Fairfax := "https://hosting.azureportal.usgovcloudapi.net/api/diagnostics"
  const Mooncake := "https://hosting.azureportal.chinacloudapi.cn/api/diagnostics"

  /** `getEnvironnmentName`: the label of the environment menu button. */
  function EnvironmentName(environment: Option<string>): (name: string)
    ensures name == "Public Cloud" <==> environment == Some(Public)
    ensures name == "Fairfax" <==> environment == Some(Fairfax)
    ensures name == "Mooncake" <==> environment == Some(Mooncake)
    ensures name == "Select environment" <==>
      environment != Some(Public) && environment != Some(Fairfax) && environment != Some(Mooncake)
  {
    match environment
    case Some(url) =>
      if url == Public then "Public Cloud"
      else if url == Fairfax then "Fairfax"
      else if url == Mooncake then "Mooncake"
      else "Select environment"
    case None => "Select environment"
  }

  /**
   * `diagnostics?.extensions[key]` when it is an `ExtensionInfo`: what the
   * link handler and the `paasserverless` and `websites` buttons select.
   */
  function ExtensionAt(diagnostics: Option<Diagnostics>, key: string): (r: Option<ExtensionInfo>)
    ensures r.Some? <==> diagnostics.Some? && IsExtensionInfo(Lookup(diagnostics.value.extensions, key))
    ensures r.Some? ==> Lookup(diagnostics.value.extensions, key) == Some(Info(r.value))
  {
    if diagnostics.None? then None
    else
      var v := Lookup(diagnostics.value.extensions, key);
      if v.Some? && v.value.Info? then Some(v.value.info) else None
  }

  /** `showPaasServerless`. */
  predicate ShowPaasServerless(diagnostics: Option<Diagnostics>): (shown: bool)
    ensures shown <==> (diagnostics.Some? && Lookup(diagnostics.value.extensions, "paasserverless").Some?
      && Lookup(diagnostics.value.extensions, "paasserverless").value.Info?)
  {
    diagnostics.Some? && IsExtensionInfo(Lookup(diagnostics.value.extensions, "paasserverless"))
  }

  /** The `paasserverless` button is shown exactly when clicking it selects an extension. */
  lemma PaasServerlessShownIffSelectable(diagnostics: Option<Diagnostics>)
    ensures ShowPaasServerless(diagnostics) <==> ExtensionAt(diagnostics, "paasserverless").Some?
    ensures ShowPaasServerless(diagnostics) ==>
      Lookup(diagnostics.value.extensions, "paasserverless") == Some(Info(ExtensionAt(diagnostics, "paasserverless").value))
  {
  }

  /** An `ExtensionInfo` in `vs` whose name is `name`, if there is one (the first such). */
  function FirstNamed(vs: seq<ExtensionValue>, name: string): (r: Option<ExtensionInfo>)
    ensures r.Some? ==> Info(r.value) in vs && r.value.extensionName == name
    ensures r.None? ==> forall i :: 0 <= i < |vs| && vs[i].Info? ==> vs[i].info.extensionName != name
  {
    if |vs| == 0 then None
    else if vs[0].Info? && vs[0].info.extensionName == name then Some(vs[0].info)
    else
      var r := FirstNamed(vs[1..], name);
      assert forall i :: 1 <= i < |vs| ==> vs[i] == vs[1..][i - 1];
      r
  }

  /**
   * The extension a navigation link stands for: the one whose name is the
   * link's key. This is what a click on the link is evidently meant to select.
   */
  function LinkedExtension(diagnostics: Option<Diagnostics>, link: NavLink): (r: Option<ExtensionInfo>)
    ensures r.Some? ==>
      diagnostics.Some? && Info(r.value) in Values(diagnostics.value.extensions) && r.value.extensionName == link.key
    ensures r.None? && diagnostics.Some? ==>
      forall i :: (0 <= i < |diagnostics.value.extensions| && diagnostics.value.extensions[i].1.Info?) ==>
        diagnostics.value.extensions[i].1.info.extensionName != link.key
  {
    if diagnostics.None? then None else FirstNamed(Values(diagnostics.value.extensions), link.key)
  }

  /** Every link of the navigation list stands for an `ExtensionInfo` of that name. */
  lemma EveryLinkHasItsExtension(d: Diagnostics)
    ensures forall l :: l in Links(d.extensions) ==>
      && LinkedExtension(Some(d), l).Some?
      && LinkedExtension(Some(d), l).value.extensionName == l.name
      && Info(LinkedExtension(Some(d), l).value) in Values(d.extensions)
  {
    var vs := Values(d.extensions);
    forall l | l in Links(d.extensions)
      ensures LinkedExtension(Some(d), l).Some?
    {
      LinkOrigin(d.extensions, l);
      var i :| 0 <= i < |d.extensions| && d.extensions[i].1.Info? && d.extensions[i].1.info.extensionName == l.key;
      assert vs[i] == d.extensions[i].1;
    }
    forall l | l in Links(d.extensions)
      ensures l.name == l.key
    {
      LinkOrigin(d.extensions, l);
    }
  }

  /**
   * As written, the link handler looks the link's key up among the record
   * keys, but that key is the extension's name: with the record
   * `{testExtension: {extensionName: "Test Extension"}}` the one link in the
   * list selects nothing, while the extension it stands for exists.
   */
  lemma LinkClickMissesExtensionKeyedByOtherName()
    ensures var info := ExtensionInfo("Test Extension", None, None);
      var d := Diagnostics([], [("testExtension", Info(info))], []);
      && Links(d.extensions) == [ToNavLink(info)]
      && ExtensionAt(Some(d), Links(d.extensions)[0].key) == None
      && LinkedExtension(Some(d), Links(d.extensions)[0]) == Some(info)
  {
    var info := ExtensionInfo("Test Extension", None, None);
    var d := Diagnostics([], [("testExtension", Info(info))], []);
    assert Values(d.extensions) == [Info(info)];
    assert InfoValues([Info(info)]) == [info];
    assert NavLinks([info]) == [ToNavLink(info)];
    assert SortByKey([ToNavLink(info)]) == [ToNavLink(info)] by {
      assert [ToNavLink(info)][..0] == [];
    }
  }

  /**
   * A click on link `i` of the navigation list hands `onLinkClick` one link.
   * Its key is the name of an `ExtensionInfo` of the record, and the
   * corrected lookup finds that extension; the lookup as written finds it
   * only when the record stores it under that same key.
   */
  lemma ClickedLinkNamesItsExtension(d: Diagnostics, i: nat)
    requires i < |Links(d.extensions)|
    ensures var calls := ClickCalls(Links(d.extensions), i, true);
      && |calls| == 1
      && calls[0].key == calls[0].name
      && LinkedExtension(Some(d), calls[0]).Some?
      && LinkedExtension(Some(d), calls[0]).value.extensionName == calls[0].key
      && (ExtensionAt(Some(d), calls[0].key).Some? <==>
            IsExtensionInfo(Lookup(d.extensions, calls[0].key)))
  {
    var l := Links(d.extensions)[i];
    EveryLinkHasItsExtension(d);
    LinkOrigin(d.extensions, l);
  }

  /** The panel under the tabs. */
  datatype Panel =
    | ExtensionsPanel(links: seq<NavLink>, selected: Option<ExtensionInfo>)
    | BuildPanel(buildInfo: Record<string>)
    | ServerPanel(serverInfo: Record<string>)
    | NoPanel

  /** What a render with diagnostics at hand shows. */
  datatype Page = Page(environmentName: string, showPaasServerless: bool, selectedTab: string, panel: Panel)

  /** The body of `App` after `useDiagnostics` returned: nothing for null diagnostics, else the page. */
  function PageFor(diagnostics: Option<Diagnostics>, environment: string, selectedTab: string,
                   extension: Option<ExtensionInfo>): (p: Option<Page>)
    ensures p.None? <==> diagnostics.None?
    ensures p.Some? ==>
      && p.value.environmentName == EnvironmentName(Some(environment))
      && p.value.showPaasServerless == ExtensionAt(diagnostics, "paasserverless").Some?
      && p.value.selectedTab == selectedTab
      && (p.value.panel.ExtensionsPanel? <==> selectedTab == "extensions")
      && (selectedTab == "extensions" ==>
            p.value.panel == ExtensionsPanel(Links(diagnostics.value.extensions), extension))
  {
    PaasServerlessShownIffSelectable(diagnostics);
    match diagnostics
    case None => None
    case Some(d) =>
      var panel :=
        if selectedTab == "extensions" then ExtensionsPanel(Links(d.extensions), extension)
        else if selectedTab == "build" then BuildPanel(d.buildInfo)
        else if selectedTab == "server" then ServerPanel(d.serverInfo)
        else NoPanel;
      Some(Page(EnvironmentName(Some(environment)), ShowPaasServerless(diagnostics), selectedTab, panel))
  }

  /** One render of `App`: it suspends, fails or shows what `useDiagnostics` gave it. */
  datatype View = Loading(promise: nat) | Crashed(error: Error) | Shown(page: Option<Page>)

  /** The state `App` keeps, and the diagnostics cache it reads and clears. */
  class App {
    const cache: DiagnosticsCache
    var environment: string
    var extension: Option<ExtensionInfo>
    var selectedTab: string

    /** The initial state: the public cloud, no extension, the extensions tab. */
    constructor (cache: DiagnosticsCache)
      ensures this.cache == cache
      ensures environment == Public && extension == None && selectedTab == "extensions"
    {
      this.cache := cache;
      environment := Public;
      extension := None;
      selectedTab := "extensions";
    }

    /** `handleEnvironmentChange(value)`. */
    method HandleEnvironmentChange(value: string)
      requires cache.Valid()
      modifies this, cache
      ensures cache.Valid()
      ensures selectedTab == old(selectedTab)
      ensures value == "" ==>
        environment == old(environment) && extension == old(extension) && cache.State() == old(cache.State())
      ensures value != "" ==>
        environment == value && extension == None && cache.State() == ClearStore(old(cache.State()))
    {
      if value != "" {
        environment := value;
        extension := None;
        cache.Clear();
      }
    }

    /** `handleLinkClick(event, item)`, as written: it looks `item.key` up among the record keys. */
    method HandleLinkClick(diagnostics: Option<Diagnostics>, item: Option<NavLink>)
      modifies this
      ensures environment == old(environment) && selectedTab == old(selectedTab)
      ensures item.Some? && ExtensionAt(diagnostics, item.value.key).Some? ==>
        extension == ExtensionAt(diagnostics, item.value.key)
      ensures item.None? || ExtensionAt(diagnostics, item.value.key).None? ==> extension == old(extension)
    {
      if item.Some? {
        var target := ExtensionAt(diagnostics, item.value.key);
        if target.Some? {
          extension := target;
        }
      }
    }

    /**
     * The link handler with its lookup corrected: it selects the extension
     * the link was made from (see `LinkClickMissesExtensionKeyedByOtherName`).
     */
    method HandleLinkClickCorrected(diagnostics: Option<Diagnostics>, item: Option<NavLink>)
      modifies this
      ensures environment == old(environment) && selectedTab == old(selectedTab)
      ensures item.Some? && LinkedExtension(diagnostics, item.value).Some? ==>
        extension == LinkedExtension(diagnostics, item.value)
      ensures item.None? || LinkedExtension(diagnostics, item.value).None? ==> extension == old(extension)
    {
      if item.Some? {
        var target := LinkedExtension(diagnostics, item.value);
        if target.Some? {
          extension := target;
        }
      }
    }

    /** The `paasserverless` and `websites` buttons: select the extension stored under `name`. */
    method HandleNamedButton(diagnostics: Option<Diagnostics>, name: string)
      modifies this
      ensures environment == old(environment) && selectedTab == old(selectedTab)
      ensures extension == if ExtensionAt(diagnostics, name).Some? then ExtensionAt(diagnostics, name) else old(extension)
    {
      var target := ExtensionAt(diagnostics, name);
      if target.Some? {
        extension := target;
      }
    }

    /** The tabs' `onValueChange`. */
    method HandleTabChange(value: string)
      modifies this
      ensures selectedTab == value
      ensures environment == old(environment) && extension == old(extension)
    {
      selectedTab := value;
    }

    /** One render: read the diagnostics of the selected environment, then lay out the page. */
    method Render() returns (view: View)
      requires cache.Valid()
      modifies cache
      ensures cache.Valid()
      ensures var o := ReadStore(old(cache.State()), environment);
        && cache.State() == o.store
        && (o.result.Suspend? ==> view == Loading(o.result.promise))
        && (o.result.Raise? ==> view == Crashed(o.result.error))
        && (o.result.Value? ==>
              view == Shown(PageFor(Some(o.result.diagnostics), environment, selectedTab, extension)))
    {
      var r := cache.Read(environment);
      match r
      case Suspend(_, promise) => view := Loading(promise);
      case Raise(error) => view := Crashed(error);
      case Value(d) => view := Shown(PageFor(Some(d), environment, selectedTab, extension));
    }
  }
}
