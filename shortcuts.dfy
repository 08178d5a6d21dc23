/**
 * The keyboard-shortcut configuration: per route (an exact path, a wildcard "X*", or "global"),
 * a map from key strings to an action and a description, and a flag that switches a route's
 * shortcuts off. Actions act on the router and are modelled by what they would do.
 */
module Shortcuts {
  import opened Base

  /** What an action does when it runs. */
  datatype Action =
    | Noop                   // `() => {}`
    | Push(path: string)     // `router.push(path)`
    | Back                   // `router.back()`
    | ToggleNavbar           // the "toggle-navbar" event and its notice
    | Notify(message: string)

  datatype Shortcut = Shortcut(action: Action, description: string)

  /** A route's configuration: the `disabled` flag and the shortcuts in declaration order. */
  datatype RouteConfig = RouteConfig(disabled: bool, entries: seq<(string, Shortcut)>)

  /** `route(path)`: an action that pushes exactly `path`. */
  function Route(path: string): (a: Action)
    ensures a.Push? && a.path == path
  {
    Push(path)
  }

  /** `back()`: an action that goes back in the history. */
  function BackAction(): (a: Action)
    ensures a == Back
  {
    Back
  }

  /** The routes in declaration order (the order `Object.keys` lists them in). */
  const Config: seq<(string, RouteConfig)> := [
    ("global", RouteConfig(false, [
      ("shift+?", Shortcut(Noop, "Mostrar todos os atalhos")),
      ("ctrl+h", Shortcut(Route("/"), "Ir para página inicial")),
      ("ctrl+b", Shortcut(ToggleNavbar, "Esconder/Mostrar a barra de navegação"))])),
    ("/", RouteConfig(false, [
      ("p", Shortcut(Route("/posts"), "Ir para a página de posts")),
      ("c", Shortcut(Route("/covers"), "Ir para a página de capas")),
      ("shift+s", Shortcut(Route("/about"), "Ir para a página de sobre"))])),
    ("/posts", RouteConfig(false, [
      ("esc", Shortcut(Route("/"), "Voltar para Home")),
      ("c", Shortcut(Route("/covers"), "Ir para a página de capas")),
      ("shift+s", Shortcut(Route("/about"), "Ir para a página de sobre"))])),
    ("/posts/*", RouteConfig(false, [
      ("p", Shortcut(Route("/posts"), "Ir para a página de posts")),
      ("esc", Shortcut(Route("/posts"), "Voltar para a lista")),
      ("backspace", Shortcut(Route("/posts"), "Voltar"))])),
    ("/admin", RouteConfig(true, [])),
    ("/admin/*", RouteConfig(true, []))
  ]

  /** `config[key]`: the first entry under `key`, or `undefined`. */
  function Find<T>(entries: seq<(string, T)>, key: string): (r: Option<T>)
    ensures r.Some? ==> exists i :: 0 <= i < |entries| && entries[i] == (key, r.value)
    ensures r.None? <==> forall i :: 0 <= i < |entries| ==> entries[i].0 != key
  {
    if entries == [] then None
    else if entries[0].0 == key then Some(entries[0].1)
    else
      var r := Find(entries[1..], key);
      assert forall i :: 0 <= i < |entries[1..]| ==> entries[1..][i] == entries[i + 1];
      r
  }

  /** `shortcuts[path]`. */
  function RouteFor(path: string): Option<RouteConfig> {
    Find(Config, path)
  }

  /** The global shortcuts. */
  function Global(): seq<(string, Shortcut)> {
    Config[0].1.entries
  }

  /** Only the admin area is switched off, its root and everything under it alike. */
  lemma AdminDisabled()
    ensures RouteFor("/admin") == Some(RouteConfig(true, []))
    ensures RouteFor("/admin/*") == Some(RouteConfig(true, []))
  {
  }

  /** No other route is switched off. */
  lemma OnlyAdminDisabled()
    ensures forall i :: 0 <= i < 4 ==> !Config[i].1.disabled
    ensures Config[4].0 == "/admin" && Config[5].0 == "/admin/*" && |Config| == 6
  {
  }

  /** The global map holds exactly "shift+?", "ctrl+h" and "ctrl+b"; the first one does nothing by itself. */
  lemma GlobalKeys()
    ensures Config[0].0 == "global" && RouteFor("global") == Some(Config[0].1)
    ensures |Global()| == 3
    ensures Global()[0].0 == "shift+?" && Global()[1].0 == "ctrl+h" && Global()[2].0 == "ctrl+b"
    ensures Find(Global(), "shift+?") == Some(Shortcut(Noop, "Mostrar todos os atalhos"))
    ensures Find(Global(), "ctrl+h").value.action == Push("/")
  {
  }

  /** Under a post, "p", "esc" and "backspace" all lead back to the post list. */
  lemma PostDetailKeys()
    ensures RouteFor("/posts/*").Some?
    ensures var entries := RouteFor("/posts/*").value.entries;
      |entries| == 3 && entries[0].0 == "p" && entries[1].0 == "esc" && entries[2].0 == "backspace"
      && forall i :: 0 <= i < 3 ==> entries[i].1.action == Push("/posts")
  {
  }
}
