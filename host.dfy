/**
 * The host the plugin talks to (WordPress and WP-CLI), reduced to an
 * append-only log of the registrations it receives. What WordPress later
 * does with a hook or a route is not part of this model.
 */
module Host {
  import opened Wrappers
  import opened DocScan

  /** `[$this, 'method']`: the component is named by its class key. */
  datatype Callback = Callback(owner: string, methodName: string)

  datatype Registration =
    /** `add_filter`, `add_action` or `add_shortcode` with all four arguments. */
    | HookAdded(kind: HookKind, name: string, callback: Callback, priority: int, argCount: int)
    /** `WP_CLI::add_command`; the name is PHP `null` when the pattern caught none. */
    | CommandAdded(command: Option<string>, callback: Callback)
    /** `register_rest_route($namespace, $route, $args)`; `$args` passes through untouched. */
    | RouteRegistered(namespace: string, route: string, args: string)

  class HostLog {
    var log: seq<Registration>

    constructor()
      ensures log == []
    {
      log := [];
    }

    /** One host call: the log grows by exactly that record. */
    method Record(r: Registration)
      modifies this
      ensures log == old(log) + [r]
    {
      log := log + [r];
    }
  }
}
