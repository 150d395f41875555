/** The loaded schedules, as the plugin receives them from its loader, and the
    table of dispatch handlers that startSchedule validates types against. */
module Registry {
  import opened Values

  /** The `schedule` object of a loaded schedule file. Every field keeps its
      raw JavaScript value, because the code only tests their truthiness and
      turns them into text. */
  datatype Config = Config(
    kind: JsValue,        // `type`
    interval: JsValue,
    cron: JsValue,
    immediate: JsValue,
    disable: JsValue)

  /** One property of the loaded schedule map: its resolved file path, its
      dispatch key and its configuration. The task function itself is not
      modelled; its outcome is an input where it matters. */
  datatype Entry = Entry(path: string, key: string, schedule: Config)

  /** The loaded map, in property order: an object has no duplicate
      property names, and the loader gives every schedule its own key. */
  ghost predicate WellFormed(es: seq<Entry>)
  {
    forall i, j :: 0 <= i < j < |es| ==> es[i].path != es[j].path && es[i].key != es[j].key
  }

  /** `schedule.disable` is falsy: a schedule without the field runs, one
      with `disable: true` does not. */
  predicate Enabled(e: Entry)
    ensures e.schedule.disable == Undefined ==> Enabled(e)
    ensures e.schedule.disable == Bool(true) ==> !Enabled(e)
    ensures Enabled(e) <==> !Truthy(e.schedule.disable)
  {
    !Truthy(e.schedule.disable)
  }

  /** The keys listenScheduleMessage subscribes to, in loop order: one per
      entry that is not disabled. */
  function EnabledKeys(es: seq<Entry>): (r: seq<string>)
    ensures |r| <= |es|
    ensures forall k :: k in r <==> exists i :: 0 <= i < |es| && Enabled(es[i]) && es[i].key == k
    decreases |es|
  {
    if es == [] then []
    else
      var last := es[|es| - 1];
      EnabledKeys(es[..|es| - 1]) + (if Enabled(last) then [last.key] else [])
  }

  /** A disabled schedule is never subscribed to, and so never runs on a message. */
  lemma DisabledNotSubscribed(es: seq<Entry>, i: nat)
    requires WellFormed(es) && i < |es| && !Enabled(es[i])
    ensures es[i].key !in EnabledKeys(es)
  {
  }

  /** The two handlers registered in `app[SCHEDULE_HANDLER]`. */
  datatype HandlerKind = Worker | All

  /** `handlers[type]` restricted to the table's own properties: `worker` and
      `all` are the only schedule types there are. */
  function ResolveHandler(name: string): (r: Option<HandlerKind>)
    ensures r == Some(Worker) <==> name == "worker"
    ensures r == Some(All) <==> name == "all"
    ensures r == None <==> name != "worker" && name != "all"
  {
    if name == "worker" then Some(Worker)
    else if name == "all" then Some(All)
    else None
  }

  /** The properties every plain object inherits from Object.prototype. */
  const ObjectPrototypeNames: set<string> := {
    "constructor", "hasOwnProperty", "isPrototypeOf", "propertyIsEnumerable",
    "toLocaleString", "toString", "valueOf", "__proto__",
    "__defineGetter__", "__defineSetter__", "__lookupGetter__", "__lookupSetter__"}

  /** What `handlers[type]` yields on the plain object literal of the source. */
  datatype Lookup = Own(kind: HandlerKind) | Inherited(name: string) | Absent

  /** Property lookup as written: own properties first, then the prototype. */
  function LookupAsWritten(name: string): (r: Lookup)
    ensures r.Inherited? ==> r.name == name
  {
    if name == "worker" then Own(Worker)
    else if name == "all" then Own(All)
    else if name in ObjectPrototypeNames then Inherited(name)
    else Absent
  }

  /** The guard `if (!handler)` lets every found property through. */
  predicate PassesGuardAsWritten(name: string)
    ensures PassesGuardAsWritten(name) <==> name == "worker" || name == "all" || name in ObjectPrototypeNames
  {
    !LookupAsWritten(name).Absent?
  }

  /** As written, the type `constructor` is not rejected: it finds the inherited
      `Object` function, which the loop then calls instead of a handler (it
      arms nothing and throws nothing). ResolveHandler rejects it. */
  lemma ConstructorPassesGuard()
    ensures PassesGuardAsWritten("constructor")
    ensures ResolveHandler("constructor") == None
  {
  }

  /** ResolveHandler agrees with the lookup as written on every name that is
      not inherited from Object.prototype. */
  lemma ResolveHandlerAgrees(name: string)
    requires name !in ObjectPrototypeNames
    ensures ResolveHandler(name).Some? <==> PassesGuardAsWritten(name)
    ensures LookupAsWritten(name).Own? ==> ResolveHandler(name) == Some(LookupAsWritten(name).kind)
  {
  }

  /** The first entry loaded under `path`, as `schedules[path]` finds it. */
  function Find(es: seq<Entry>, path: string): (r: Option<Entry>)
    ensures r.None? <==> forall i :: 0 <= i < |es| ==> es[i].path != path
    ensures r.Some? ==> r.value in es && r.value.path == path
  {
    if es == [] then None
    else if es[0].path == path then Some(es[0])
    else Find(es[1..], path)
  }
}
