/**
 * The extension navigation list: the `ExtensionInfo` values of the
 * `extensions` record, each turned into a link, sorted by key; and what a
 * click on one of the links hands to the `onLinkClick` callback.
 */
module Extensions {

  import opened Wrappers
  import opened Strings
  import opened Records
  import opened DiagnosticsTypes

  /** `isExtensionInfo(value)`; `undefined` is not an `ExtensionInfo`. */
  predicate IsExtensionInfo(v: Option<ExtensionValue>): (b: bool)
    ensures !b <==> v.None? || v.value.Failed?
  {
    v.Some? && v.value.Info?
  }

  /** `KeyedNavLink`. */
  datatype NavLink = NavLink(key: string, name: string, url: string)

  /** `toNavLink(info)`. */
  function ToNavLink(info: ExtensionInfo): (l: NavLink)
    ensures l.key == info.extensionName && l.name == l.key && l.url == ""
  {
    NavLink(info.extensionName, info.extensionName, "")
  }

  /** `byKey(a, b)`: -1, 1 or 0 as `a.key` sorts before, after or with `b.key`. */
  function ByKey(a: NavLink, b: NavLink): (c: int)
    ensures c == -1 <==> Less(a.key, b.key)
    ensures c == 1 <==> Less(b.key, a.key)
    ensures c == 0 <==> a.key == b.key
  {
    LessAsymmetric(a.key, b.key);
    LessTotal(a.key, b.key);
    LessIrreflexive(a.key);
    if Less(a.key, b.key) then -1 else if Less(b.key, a.key) then 1 else 0
  }

  /** `byKey` is a consistent comparator: swapping its arguments negates it. */
  lemma ByKeyAntisymmetric(a: NavLink, b: NavLink)
    ensures ByKey(b, a) == -ByKey(a, b)
  {
    LessAsymmetric(a.key, b.key);
  }

  /** `.filter(isExtensionInfo)`, keeping the `ExtensionInfo` itself. */
  function InfoValues(vs: seq<ExtensionValue>): (infos: seq<ExtensionInfo>)
    ensures |infos| <= |vs|
    ensures forall x :: x in infos <==> Info(x) in vs
    ensures (forall i :: 0 <= i < |vs| ==> vs[i].Info?) ==> |infos| == |vs|
    ensures forall x :: multiset(infos)[x] == multiset(vs)[Info(x)]
  {
    if |vs| == 0 then []
    else
      var rest := InfoValues(vs[1..]);
      assert forall v :: v in vs <==> v == vs[0] || v in vs[1..];
      assert vs == [vs[0]] + vs[1..];
      assert multiset(vs) == multiset{vs[0]} + multiset(vs[1..]);
      match vs[0]
      case Info(x) => [x] + rest
      case Failed(_) => rest
  }

  /** `.map(toNavLink)`. */
  function NavLinks(infos: seq<ExtensionInfo>): (links: seq<NavLink>)
    ensures |links| == |infos|
    ensures forall i :: 0 <= i < |infos| ==> links[i] == ToNavLink(infos[i])
  {
    seq(|infos|, i requires 0 <= i < |infos| => ToNavLink(infos[i]))
  }

  /** Ascending by key, as `byKey` orders them. */
  ghost predicate SortedByKey(links: seq<NavLink>)
  {
    forall i, j :: 0 <= i < j < |links| ==> ByKey(links[i], links[j]) <= 0
  }

  /** A link that sorts with or before every link of a sorted list may lead it. */
  lemma SortedCons(link: NavLink, sorted: seq<NavLink>)
    requires SortedByKey(sorted)
    requires forall k :: 0 <= k < |sorted| ==> ByKey(link, sorted[k]) <= 0
    ensures SortedByKey([link] + sorted)
  {
    var r := [link] + sorted;
    forall i, j | 0 <= i < j < |r| ensures ByKey(r[i], r[j]) <= 0 {
      if i > 0 {
        assert r[i] == sorted[i - 1] && r[j] == sorted[j - 1];
      }
    }
  }

  /** A link that sorts before the head of a sorted list may lead it. */
  lemma InsertInFront(link: NavLink, sorted: seq<NavLink>)
    requires SortedByKey(sorted) && |sorted| > 0 && ByKey(link, sorted[0]) < 0
    ensures SortedByKey([link] + sorted)
  {
    forall k | 0 <= k < |sorted| ensures ByKey(link, sorted[k]) <= 0 {
      if k > 0 && Less(sorted[0].key, sorted[k].key) {
        LessTransitive(link.key, sorted[0].key, sorted[k].key);
      }
    }
    SortedCons(link, sorted);
  }

  /** The head of a sorted list may lead the list with `link` inserted behind it. */
  lemma InsertBehind(link: NavLink, sorted: seq<NavLink>, rest: seq<NavLink>)
    requires SortedByKey(sorted) && |sorted| > 0 && ByKey(link, sorted[0]) >= 0
    requires SortedByKey(rest) && multiset(rest) == multiset(sorted[1..]) + multiset{link}
    ensures SortedByKey([sorted[0]] + rest)
    ensures multiset([sorted[0]] + rest) == multiset(sorted) + multiset{link}
  {
    assert multiset(sorted) == multiset{sorted[0]} + multiset(sorted[1..]) by {
      assert sorted == [sorted[0]] + sorted[1..];
    }
    forall k | 0 <= k < |rest| ensures ByKey(sorted[0], rest[k]) <= 0 {
      assert rest[k] in multiset(rest);
      if rest[k] == link {
        ByKeyAntisymmetric(link, sorted[0]);
      } else {
        var m :| 0 <= m < |sorted[1..]| && sorted[1..][m] == rest[k];
        assert sorted[m + 1] == rest[k];
      }
    }
    SortedCons(sorted[0], rest);
  }

  /** Places `link` after every link whose key does not sort after its own. */
  function Insert(link: NavLink, sorted: seq<NavLink>): (r: seq<NavLink>)
    requires SortedByKey(sorted)
    ensures SortedByKey(r)
    ensures multiset(r) == multiset(sorted) + multiset{link}
  {
    if |sorted| == 0 then [link]
    else if ByKey(link, sorted[0]) < 0 then
      InsertInFront(link, sorted);
      [link] + sorted
    else
      var rest := Insert(link, sorted[1..]);
      InsertBehind(link, sorted, rest);
      [sorted[0]] + rest
  }

  /** `.sort(byKey)`: a stable sort by key. */
  function SortByKey(links: seq<NavLink>): (r: seq<NavLink>)
    ensures SortedByKey(r)
    ensures multiset(r) == multiset(links)
  {
    if |links| == 0 then []
    else
      var init := links[..|links| - 1];
      assert links == init + [links[|links| - 1]];
      Insert(links[|links| - 1], SortByKey(init))
  }

  /** `links`: the navigation list of the Extensions panel. */
  function Links(extensions: Record<ExtensionValue>): (links: seq<NavLink>)
    ensures SortedByKey(links)
    ensures multiset(links) == multiset(NavLinks(InfoValues(Values(extensions))))
  {
    SortByKey(NavLinks(InfoValues(Values(extensions))))
  }

  /** Each link of the navigation list comes from an `ExtensionInfo` named by its key. */
  lemma LinkOrigin(extensions: Record<ExtensionValue>, l: NavLink)
    requires l in Links(extensions)
    ensures l.url == "" && l.name == l.key
    ensures exists i :: (0 <= i < |extensions| && extensions[i].1.Info?
      && extensions[i].1.info.extensionName == l.key)
  {
    var vs := Values(extensions);
    var infos := InfoValues(vs);
    var mapped := NavLinks(infos);
    assert l in multiset(mapped);
    var k :| 0 <= k < |mapped| && mapped[k] == l;
    assert infos[k] in infos;
    assert Info(infos[k]) in vs;
    var i :| 0 <= i < |vs| && vs[i] == Info(infos[k]);
    assert extensions[i].1 == Info(infos[k]);
  }

  /**
   * The navigation list has one link per `ExtensionInfo` value and none for
   * an `ExtensionError`; every link has `key` and `name` equal to the
   * extension's name and an empty `url`; the list is sorted by key.
   */
  lemma LinksSpec(extensions: Record<ExtensionValue>)
    ensures var links := Links(extensions);
      && |links| == |InfoValues(Values(extensions))|
      && SortedByKey(links)
      && (forall l :: l in links ==>
            l.url == "" && l.name == l.key
            && exists i :: 0 <= i < |extensions| && extensions[i].1.Info?
                 && extensions[i].1.info.extensionName == l.key)
      && (forall i :: 0 <= i < |extensions| && extensions[i].1.Info? ==>
            ToNavLink(extensions[i].1.info) in links)
      && (|extensions| == 0 ==> links == [])
  {
    var vs := Values(extensions);
    var infos := InfoValues(vs);
    var mapped := NavLinks(infos);
    var links := Links(extensions);
    assert |links| == |mapped| by {
      assert |multiset(links)| == |multiset(mapped)|;
    }
    forall l | l in links
      ensures l.url == "" && l.name == l.key
      ensures exists i :: 0 <= i < |extensions| && extensions[i].1.Info?
                 && extensions[i].1.info.extensionName == l.key
    {
      LinkOrigin(extensions, l);
    }
    forall i | 0 <= i < |extensions| && extensions[i].1.Info?
      ensures ToNavLink(extensions[i].1.info) in links
    {
      assert vs[i] == Info(extensions[i].1.info);
      var x := extensions[i].1.info;
      assert x in infos;
      var k :| 0 <= k < |infos| && infos[k] == x;
      assert mapped[k] == ToNavLink(x);
      assert ToNavLink(x) in multiset(mapped);
    }
  }

  /**
   * A click on link `i`: the calls made to `onLinkClick`, which is optional.
   * There is one call, with that very link, when a callback is given.
   */
  function ClickCalls(links: seq<NavLink>, i: nat, hasCallback: bool): (calls: seq<NavLink>)
    requires i < |links|
    ensures |calls| <= 1 && (|calls| == 1 <==> hasCallback)
    ensures forall c :: c in calls ==> c == links[i]
  {
    if hasCallback then [links[i]] else []
  }
}
