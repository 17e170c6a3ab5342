/** The parts of a vue-router route location that the guard and the tab store read. */
module Routes {
  import opened Wrappers

  /** Route metadata. An empty `title` stands for an absent (falsy) one; an
      absent `requiresAuth` or `inTab` is `false`; `closable` keeps the
      difference between `false` and absent, because `??` does. */
  datatype RouteMeta = RouteMeta(title: string, requiresAuth: bool, closable: Option<bool>, inTab: bool)

  /** A resolved route. An empty `name` stands for an unnamed route. */
  datatype Route = Route(name: string, path: string, fullPath: string, meta: RouteMeta)
}
