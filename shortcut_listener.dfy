/**
 * The shortcut listener: which shortcuts a page lists in its help dialog, and what a key press
 * does. A route is switched off by its own `disabled` flag or by the flag of a wildcard route
 * that covers it; otherwise the global shortcuts come first, then the page's own, then those of
 * every wildcard route that covers the page. The routes are a parameter; the concrete facts
 * below are about the shipped configuration.
 */
module ShortcutListener {
  import opened Base
  import opened Text
  import opened Lists
  import opened Shortcuts

  type Routes = seq<(string, RouteConfig)>

  /** `s.slice(0, -1)`. */
  function DropLast(s: string): (r: string)
    ensures s != [] ==> r == s[..|s| - 1]
    ensures s == [] ==> r == []
  {
    if s == [] then [] else s[..|s| - 1]
  }

  /**
   * Whether the wildcard route `routeKey` ("X*") covers `pathname`: the path starts with X but is
   * neither X itself nor X without its last character.
   */
  predicate Covers(routeKey: string, pathname: string) {
    EndsWith(routeKey, "*") &&
    var baseRoute := routeKey[..|routeKey| - 1];
    StartsWith(pathname, baseRoute) && pathname != baseRoute && pathname != DropLast(baseRoute)
  }

  predicate WildcardDisabled(routes: Routes, pathname: string) {
    exists i :: 0 <= i < |routes| && Covers(routes[i].0, pathname) && routes[i].1.disabled
  }

  predicate Disabled(routes: Routes, pathname: string) {
    var current := Find(routes, pathname);
    (current.Some? && current.value.disabled) || WildcardDisabled(routes, pathname)
  }

  /** The scan that sets `isDynamicRouteDisabled` when a covering wildcard route is switched off. */
  method ScanWildcards(routes: Routes, pathname: string) returns (isDynamicRouteDisabled: bool)
    ensures isDynamicRouteDisabled <==> WildcardDisabled(routes, pathname)
  {
    isDynamicRouteDisabled := false;
    for i := 0 to |routes|
      invariant isDynamicRouteDisabled <==>
        exists j :: 0 <= j < i && Covers(routes[j].0, pathname) && routes[j].1.disabled
    {
      var routeKey := routes[i].0;
      if EndsWith(routeKey, "*") {
        var baseRoute := routeKey[..|routeKey| - 1];
        if StartsWith(pathname, baseRoute) && pathname != baseRoute && pathname != DropLast(baseRoute) {
          if routes[i].1.disabled {
            isDynamicRouteDisabled := true;
          }
        }
      }
    }
  }

  // ---------------------------------------------------------------- the listing

  /** The `[key, description]` pairs of a route's shortcuts, in declaration order. */
  function Described(entries: seq<(string, Shortcut)>): (r: seq<(string, string)>)
    ensures |r| == |entries|
    ensures forall i :: 0 <= i < |entries| ==> r[i] == (entries[i].0, entries[i].1.description)
  {
    if entries == [] then []
    else
      var last := entries[|entries| - 1];
      Described(entries[..|entries| - 1]) + [(last.0, last.1.description)]
  }

  /** The listing a wildcard route adds at `pathname`: all of its shortcuts if it covers the path. */
  function Block(route: (string, RouteConfig), pathname: string): seq<(string, string)> {
    if Covers(route.0, pathname) then Described(route.1.entries) else []
  }

  /** The listings of the covering wildcard routes, in route order. */
  function WildcardListing(routes: Routes, pathname: string): seq<(string, string)> {
    if routes == [] then []
    else WildcardListing(routes[..|routes| - 1], pathname) + Block(routes[|routes| - 1], pathname)
  }

  function GlobalEntries(routes: Routes): seq<(string, Shortcut)> {
    match Find(routes, "global")
    case Some(c) => c.entries
    case None => []
  }

  function PageEntries(routes: Routes, pathname: string): seq<(string, Shortcut)> {
    match Find(routes, pathname)
    case Some(c) => c.entries
    case None => []
  }

  /** What `getActiveShortcuts` returns: nothing on a switched-off route, else global, page, wildcards. */
  function ActiveShortcuts(routes: Routes, pathname: string): seq<(string, string)> {
    if Disabled(routes, pathname) then []
    else Described(GlobalEntries(routes)) + Described(PageEntries(routes, pathname)) + WildcardListing(routes, pathname)
  }

  /** `Object.entries(config).forEach(... active.push([key, description]))`. */
  method PushDescribed(active: seq<(string, string)>, entries: seq<(string, Shortcut)>) returns (r: seq<(string, string)>)
    ensures r == active + Described(entries)
  {
    r := active;
    for j := 0 to |entries|
      invariant r == active + Described(entries[..j])
    {
      assert entries[..j + 1][..j] == entries[..j];
      r := r + [(entries[j].0, entries[j].1.description)];
    }
    assert entries[..|entries|] == entries;
  }

  /** One step of the last loop of `getActiveShortcuts`: a covering wildcard route pushes its shortcuts. */
  method PushIfCovering(active: seq<(string, string)>, route: (string, RouteConfig), pathname: string)
    returns (r: seq<(string, string)>)
    ensures r == active + Block(route, pathname)
  {
    r := active;
    var routeKey := route.0;
    if EndsWith(routeKey, "*") {
      var baseRoute := routeKey[..|routeKey| - 1];
      if StartsWith(pathname, baseRoute) && pathname != baseRoute && pathname != DropLast(baseRoute) {
        r := PushDescribed(r, route.1.entries);
      }
    }
  }

  /** The last loop of `getActiveShortcuts`: push the shortcuts of every covering wildcard route. */
  method PushWildcards(active: seq<(string, string)>, routes: Routes, pathname: string) returns (r: seq<(string, string)>)
    ensures r == active + WildcardListing(routes, pathname)
  {
    r := active;
    for i := 0 to |routes|
      invariant r == active + WildcardListing(routes[..i], pathname)
    {
      assert routes[..i + 1][..i] == routes[..i];
      r := PushIfCovering(r, routes[i], pathname);
    }
    assert routes[..|routes|] == routes;
  }

  method GetActiveShortcuts(routes: Routes, pathname: string) returns (active: seq<(string, string)>)
    ensures active == ActiveShortcuts(routes, pathname)
  {
    var currentRouteConfig := Find(routes, pathname);
    var isRouteDisabled := currentRouteConfig.Some? && currentRouteConfig.value.disabled;
    var isDynamicRouteDisabled := ScanWildcards(routes, pathname);
    if isRouteDisabled || isDynamicRouteDisabled {
      return [];
    }
    active := [];
    var global := Find(routes, "global");
    if global.Some? {
      active := PushDescribed(active, global.value.entries);
    }
    assert active == Described(GlobalEntries(routes));
    if currentRouteConfig.Some? {
      active := PushDescribed(active, currentRouteConfig.value.entries);
    }
    assert active == Described(GlobalEntries(routes)) + Described(PageEntries(routes, pathname));
    active := PushWildcards(active, routes, pathname);
  }

  // ---------------------------------------------------------------- the key string

  /** The element a key press is aimed at. */
  datatype Target = Input | TextArea | Editable | OtherElement

  datatype KeyEvent = KeyEvent(key: string, metaKey: bool, ctrlKey: bool, altKey: bool, shiftKey: bool,
                               target: Target)

  /** The name a pressed key contributes: none for a bare modifier. */
  function KeyName(key: string): (r: Option<string>)
    ensures r.None? <==> key in {"Control", "Shift", "Meta", "Alt"}
    ensures key == "Escape" ==> r == Some("esc")
    ensures key != "Escape" && r.Some? ==> r.value == Lower(key)
  {
    assert Lower("?") == "?";
    assert Lower("Backspace") == "backspace";
    if key == "?" then Some("?")
    else if key == "Escape" then Some("esc")
    else if key == "Backspace" then Some("backspace")
    else if key != "Control" && key != "Shift" && key != "Meta" && key != "Alt" then Some(Lower(key))
    else None
  }

  /** The held modifiers, in the order meta, ctrl, alt, shift. */
  function Modifiers(e: KeyEvent): seq<string> {
    (if e.metaKey then ["meta"] else []) + (if e.ctrlKey then ["ctrl"] else [])
    + (if e.altKey then ["alt"] else []) + (if e.shiftKey then ["shift"] else [])
  }

  /** The parts of the key string: the held modifiers, then the key's own name. */
  function KeyParts(e: KeyEvent): seq<string> {
    Modifiers(e) + (match KeyName(e.key) case Some(n) => [n] case None => [])
  }

  /** `keys.join("+")` after pushing the parts one by one. */
  method KeyString(e: KeyEvent) returns (keyString: string)
    ensures keyString == Join(KeyParts(e), '+')
  {
    var keys: seq<string> := [];
    if e.metaKey { keys := keys + ["meta"]; }
    if e.ctrlKey { keys := keys + ["ctrl"]; }
    if e.altKey { keys := keys + ["alt"]; }
    if e.shiftKey { keys := keys + ["shift"]; }
    assert keys == Modifiers(e);
    ghost var name := KeyName(e.key);
    if e.key == "?" {
      keys := keys + ["?"];
    } else if e.key == "Escape" {
      keys := keys + ["esc"];
    } else if e.key == "Backspace" {
      keys := keys + ["backspace"];
    } else if e.key != "Control" && e.key != "Shift" && e.key != "Meta" && e.key != "Alt" {
      assert name == Some(Lower(e.key));
      keys := keys + [Lower(e.key)];
    } else {
      assert name.None?;
    }
    assert keys == KeyParts(e);
    keyString := Join(keys, '+');
  }

  /**
   * The key string reads back as its parts when the key has no "+" in it: one part per held
   * modifier, in a fixed order, and the key's own name last.
   */
  lemma KeyStringParts(e: KeyEvent)
    requires '+' !in e.key && KeyName(e.key).Some?
    ensures Split(Join(KeyParts(e), '+'), '+') == KeyParts(e)
    ensures var parts := KeyParts(e);
      |parts| == 1 + (if e.metaKey then 1 else 0) + (if e.ctrlKey then 1 else 0)
                   + (if e.altKey then 1 else 0) + (if e.shiftKey then 1 else 0)
      && parts[|parts| - 1] == KeyName(e.key).value
  {
    var parts := KeyParts(e);
    forall i | 0 <= i < |parts| ensures '+' !in parts[i] {
      if i == |parts| - 1 {
        if e.key != "?" && e.key != "Escape" && e.key != "Backspace" {
          assert forall j :: 0 <= j < |e.key| ==> Lower(e.key)[j] != '+';
        }
      }
    }
    SplitJoin(parts, '+');
  }

  /** Shift with "?" is "shift+?"; Ctrl with "H" is "ctrl+h"; Escape alone is "esc". */
  lemma KeyStringExamples(t: Target)
    ensures Join(KeyParts(KeyEvent("?", false, false, false, true, t)), '+') == "shift+?"
    ensures Join(KeyParts(KeyEvent("H", false, true, false, false, t)), '+') == "ctrl+h"
    ensures Join(KeyParts(KeyEvent("Escape", false, false, false, false, t)), '+') == "esc"
  {
    assert KeyParts(KeyEvent("?", false, false, false, true, t)) == ["shift", "?"];
    assert Lower("H") == "h";
    assert KeyParts(KeyEvent("H", false, true, false, false, t)) == ["ctrl", "h"];
  }

  // ---------------------------------------------------------------- the key handler

  /** What a key press does: whether the browser default is prevented, whether help opens, the actions run. */
  datatype Outcome = Outcome(prevented: bool, openHelp: bool, actions: seq<Action>)

  const Ignored: Outcome := Outcome(false, false, [])

  /** Typing into a field, without Meta or Ctrl held, is left to the field. */
  predicate Typing(e: KeyEvent) {
    e.target in {Input, TextArea, Editable} && !e.metaKey && !e.ctrlKey
  }

  /** The actions of the covering wildcard routes that bind `keyString`, in route order. */
  function WildcardActions(routes: Routes, pathname: string, keyString: string): seq<Action> {
    if routes == [] then []
    else
      var last := routes[|routes| - 1];
      WildcardActions(routes[..|routes| - 1], pathname, keyString) + Fires(last, pathname, keyString)
  }

  /**
   * The handler for a key string on an enabled route: a global binding wins (the help keys open
   * the dialog), then the page's own binding, and only then every covering wildcard binding fires.
   */
  function Dispatch(routes: Routes, pathname: string, keyString: string): Outcome {
    var handler := Find(GlobalEntries(routes), keyString);
    if handler.Some? then
      if keyString == "shift+?" || keyString == "?" then Outcome(true, true, [])
      else Outcome(true, false, [handler.value.action])
    else
      var own := Find(PageEntries(routes, pathname), keyString);
      if own.Some? then Outcome(true, false, [own.value.action])
      else
        var fired := WildcardActions(routes, pathname, keyString);
        Outcome(fired != [], false, fired)
  }

  /** `handleKeyDown`. */
  function Handle(routes: Routes, pathname: string, e: KeyEvent): Outcome {
    if Typing(e) || Disabled(routes, pathname) then Ignored
    else Dispatch(routes, pathname, Join(KeyParts(e), '+'))
  }

  /** The binding a wildcard route fires for `keyString`: its action if it covers the page and binds the key. */
  function Fires(route: (string, RouteConfig), pathname: string, keyString: string): seq<Action> {
    if Covers(route.0, pathname) && Find(route.1.entries, keyString).Some?
    then [Find(route.1.entries, keyString).value.action] else []
  }

  /** One step of the last stage of `handleKeyDown`: a covering wildcard route that binds the key fires. */
  method FireIfCovering(prevented: bool, fired: seq<Action>, route: (string, RouteConfig), pathname: string,
                        keyString: string) returns (prevented': bool, fired': seq<Action>)
    ensures fired' == fired + Fires(route, pathname, keyString)
    ensures prevented' == (prevented || Fires(route, pathname, keyString) != [])
  {
    prevented', fired' := prevented, fired;
    var routeKey := route.0;
    if EndsWith(routeKey, "*") {
      var baseRoute := routeKey[..|routeKey| - 1];
      if StartsWith(pathname, baseRoute) && pathname != baseRoute && pathname != DropLast(baseRoute) {
        var dynamicHandler := Find(route.1.entries, keyString);
        if dynamicHandler.Some? {
          prevented' := true;
          fired' := fired' + [dynamicHandler.value.action];
        }
      }
    }
  }

  /** The last stage of `handleKeyDown`: every covering wildcard route that binds the key fires. */
  method FireWildcards(routes: Routes, pathname: string, keyString: string) returns (prevented: bool, fired: seq<Action>)
    ensures fired == WildcardActions(routes, pathname, keyString)
    ensures prevented <==> fired != []
  {
    prevented := false;
    fired := [];
    for i := 0 to |routes|
      invariant fired == WildcardActions(routes[..i], pathname, keyString)
      invariant prevented <==> fired != []
    {
      assert routes[..i + 1][..i] == routes[..i];
      prevented, fired := FireIfCovering(prevented, fired, routes[i], pathname, keyString);
    }
    assert routes[..|routes|] == routes;
  }

  method HandleKeyDown(routes: Routes, pathname: string, e: KeyEvent) returns (outcome: Outcome)
    ensures outcome == Handle(routes, pathname, e)
  {
    if e.target in {Input, TextArea, Editable} && !e.metaKey && !e.ctrlKey {
      return Ignored;
    }
    assert !Typing(e);
    var currentRouteConfig := Find(routes, pathname);
    var isRouteDisabled := currentRouteConfig.Some? && currentRouteConfig.value.disabled;
    var isDynamicRouteDisabled := ScanWildcards(routes, pathname);
    if isRouteDisabled || isDynamicRouteDisabled {
      return Ignored;
    }
    assert !Disabled(routes, pathname);
    var keyString := KeyString(e);
    assert Handle(routes, pathname, e) == Dispatch(routes, pathname, keyString);
    var handler := Find(GlobalEntries(routes), keyString);
    if handler.Some? {
      if keyString == "shift+?" || keyString == "?" {
        return Outcome(true, true, []);
      }
      return Outcome(true, false, [handler.value.action]);
    }
    handler := Find(PageEntries(routes, pathname), keyString);
    if handler.Some? {
      return Outcome(true, false, [handler.value.action]);
    }
    var prevented, fired := FireWildcards(routes, pathname, keyString);
    outcome := Outcome(prevented, false, fired);
  }

  // ---------------------------------------------------------------- listing and handler agree

  function Keys(list: seq<(string, string)>): (r: seq<string>)
    ensures |r| == |list| && forall i :: 0 <= i < |list| ==> r[i] == list[i].0
  {
    seq(|list|, i requires 0 <= i < |list| => list[i].0)
  }

  lemma KeysAppend(a: seq<(string, string)>, b: seq<(string, string)>)
    ensures Keys(a + b) == Keys(a) + Keys(b)
  {
  }

  lemma DescribedKeys(entries: seq<(string, Shortcut)>, k: string)
    ensures k in Keys(Described(entries)) <==> Find(entries, k).Some?
  {
    if k in Keys(Described(entries)) {
      var i :| 0 <= i < |Keys(Described(entries))| && Keys(Described(entries))[i] == k;
      assert entries[i].0 == k;
    }
  }

  lemma {:induction false} WildcardKeys(routes: Routes, pathname: string, k: string)
    ensures k in Keys(WildcardListing(routes, pathname)) <==> WildcardActions(routes, pathname, k) != []
  {
    if routes != [] {
      var init := routes[..|routes| - 1];
      var last := routes[|routes| - 1];
      WildcardKeys(init, pathname, k);
      KeysAppend(WildcardListing(init, pathname), Block(last, pathname));
      DescribedKeys(last.1.entries, k);
    }
  }

  /**
   * On an enabled page the help dialog lists a key exactly when pressing it does something: every
   * listed shortcut is handled, and every handled key is listed.
   */
  lemma ListedIffHandled(routes: Routes, pathname: string, k: string)
    requires !Disabled(routes, pathname)
    ensures Dispatch(routes, pathname, k).prevented <==> k in Keys(ActiveShortcuts(routes, pathname))
  {
    var g := Described(GlobalEntries(routes));
    var p := Described(PageEntries(routes, pathname));
    var w := WildcardListing(routes, pathname);
    KeysAppend(g, p);
    KeysAppend(g + p, w);
    DescribedKeys(GlobalEntries(routes), k);
    DescribedKeys(PageEntries(routes, pathname), k);
    WildcardKeys(routes, pathname, k);
  }

  /** A switched-off page lists nothing and ignores every key. */
  lemma DisabledIsSilent(routes: Routes, pathname: string, e: KeyEvent)
    requires Disabled(routes, pathname)
    ensures ActiveShortcuts(routes, pathname) == [] && Handle(routes, pathname, e) == Ignored
  {
  }

  // ---------------------------------------------------------------- the help dialog

  /** The dialog's "Atalhos Globais" group: the listed keys bound globally. */
  function GlobalGroup(routes: Routes, active: seq<(string, string)>): seq<(string, string)> {
    Filter(active, (p: (string, string)) => Find(GlobalEntries(routes), p.0).Some?)
  }

  /** The dialog's "Nesta Tela" group: the other listed keys. */
  function ScreenGroup(routes: Routes, active: seq<(string, string)>): seq<(string, string)> {
    Filter(active, (p: (string, string)) => Find(GlobalEntries(routes), p.0).None?)
  }

  /** The two groups split the listing: every listed pair shows in exactly one of them. */
  lemma GroupsPartition(routes: Routes, active: seq<(string, string)>)
    ensures multiset(GlobalGroup(routes, active)) + multiset(ScreenGroup(routes, active)) == multiset(active)
  {
    forall x: (string, string) ensures (multiset(GlobalGroup(routes, active)) + multiset(ScreenGroup(routes, active)))[x] == multiset(active)[x] {
      FilterCount(active, (p: (string, string)) => Find(GlobalEntries(routes), p.0).Some?, x);
      FilterCount(active, (p: (string, string)) => Find(GlobalEntries(routes), p.0).None?, x);
    }
  }

  // ---------------------------------------------------------------- the shipped configuration

  // The admin wildcard covers every path strictly below "/admin/", and neither "/admin/" nor "/admin".
  lemma AdminWildcard(pathname: string)
    ensures Covers("/admin/*", pathname) <==> StartsWith(pathname, "/admin/") && pathname != "/admin/"
  {
    var routeKey := "/admin/*";
    assert routeKey[..|routeKey| - 1] == "/admin/";
    assert DropLast("/admin/") == "/admin";
  }

  /** The admin area lists no shortcut and ignores every key, at its root and below it. */
  lemma AdminIsSilent(pathname: string, e: KeyEvent)
    requires pathname == "/admin" || (StartsWith(pathname, "/admin/") && pathname != "/admin/")
    ensures ActiveShortcuts(Config, pathname) == [] && Handle(Config, pathname, e) == Ignored
  {
    if pathname == "/admin" {
      AdminDisabled();
    } else {
      AdminWildcard(pathname);
      assert Config[5].0 == "/admin/*" && Config[5].1.disabled;
    }
  }

  /** On an enabled page "shift+?" opens the help dialog and runs nothing. */
  lemma HelpKeyOpensDialog(pathname: string)
    requires !Disabled(Config, pathname)
    ensures Dispatch(Config, pathname, "shift+?") == Outcome(true, true, [])
  {
    GlobalKeys();
  }

  // The post wildcard covers every path strictly below "/posts/".
  lemma PostWildcard(pathname: string)
    ensures Covers("/posts/*", pathname) <==> StartsWith(pathname, "/posts/") && pathname != "/posts/"
  {
    var routeKey := "/posts/*";
    assert routeKey[..|routeKey| - 1] == "/posts/";
    assert DropLast("/posts/") == "/posts";
  }

  /** Below a post, the post wildcard is the only route that covers the path. */
  lemma CoveringBelowPost(pathname: string)
    requires StartsWith(pathname, "/posts/") && pathname != "/posts/"
    ensures forall i :: 0 <= i < |Config| ==> (Covers(Config[i].0, pathname) <==> i == 3)
  {
    PostWildcard(pathname);
    AdminWildcard(pathname);
    assert pathname[..7] == "/posts/";
    assert !EndsWith(Config[0].0, "*") && !EndsWith(Config[1].0, "*");
    assert !EndsWith(Config[2].0, "*") && !EndsWith(Config[4].0, "*");
  }

  /** When only the route at `m` covers the path, only its binding can fire. */
  lemma {:induction false} OnlyCoverFires(routes: Routes, pathname: string, k: string, m: nat)
    requires m < |routes|
    requires forall i :: 0 <= i < |routes| ==> (Covers(routes[i].0, pathname) <==> i == m)
    ensures WildcardActions(routes, pathname, k)
            == if Find(routes[m].1.entries, k).Some? then [Find(routes[m].1.entries, k).value.action] else []
  {
    var init := routes[..|routes| - 1];
    if m < |routes| - 1 {
      OnlyCoverFires(init, pathname, k, m);
    } else {
      NoCoverFires(init, pathname, k);
    }
  }

  lemma {:induction false} NoCoverFires(routes: Routes, pathname: string, k: string)
    requires forall i :: 0 <= i < |routes| ==> !Covers(routes[i].0, pathname)
    ensures WildcardActions(routes, pathname, k) == []
  {
    if routes != [] {
      NoCoverFires(routes[..|routes| - 1], pathname, k);
    }
  }

  /** Below a post there is no route of the path's own, and none of the covering routes is off. */
  lemma BelowPostEnabled(pathname: string)
    requires StartsWith(pathname, "/posts/") && pathname != "/posts/" && pathname != "/posts/*"
    ensures Find(Config, pathname).None?
    ensures !Disabled(Config, pathname)
  {
    CoveringBelowPost(pathname);
    assert pathname[..7] == "/posts/";
    assert forall i :: 0 <= i < |Config| ==> Config[i].0 != pathname;
    assert !Config[3].1.disabled;
  }

  lemma EscapeDispatchBelowPost(pathname: string)
    requires Find(Config, pathname).None?
    requires forall i :: 0 <= i < |Config| ==> (Covers(Config[i].0, pathname) <==> i == 3)
    ensures Dispatch(Config, pathname, "esc") == Outcome(true, false, [Push("/posts")])
  {
    GlobalKeys();
    assert Find(GlobalEntries(Config), "esc").None?;
    OnlyCoverFires(Config, pathname, "esc", 3);
    PostDetailKeys();
  }

  /** Below a post, shortcuts are on and Escape, outside a text field, leads back to the post list. */
  lemma EscapeBelowPost(pathname: string, t: Target)
    requires t == OtherElement
    requires StartsWith(pathname, "/posts/") && pathname != "/posts/" && pathname != "/posts/*"
    ensures !Disabled(Config, pathname)
    ensures Handle(Config, pathname, KeyEvent("Escape", false, false, false, false, t))
            == Outcome(true, false, [Push("/posts")])
  {
    BelowPostEnabled(pathname);
    CoveringBelowPost(pathname);
    KeyStringExamples(t);
    EscapeDispatchBelowPost(pathname);
  }
}
