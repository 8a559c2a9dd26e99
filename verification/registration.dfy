/**
  `BaseViewSet.register` and `__build_fast_view_params`
  (fast_cbv/viewsets.py): complete each discovered handler's metadata, add
  one router entry per handler, and remember the class as registered so that
  it, and every subclass, is registered at most once.
 */
module Registration {
  import opened Basics
  import opened Text
  import opened Prefix
  import opened Actions
  import opened Storage
  import opened Factory
  import opened Classes
  import opened Discovery

  /** What the router calls: the method `name` of a fresh instance of `owner`. */
  datatype Endpoint = Endpoint(owner: ClassObj, name: string, doc: string)

  /** One `add_api_route` call, with the completed metadata. */
  datatype Route = Route(
    path: string,
    verb: HttpMethod,
    response: ResponseModel,
    summary: string,
    tags: seq<string>,
    responses: map<int, string>,
    endpoint: Endpoint)

  /** The summary a handler gets when it declares none:
      `__name__.replace("_", " ").strip().title()`. */
  function DefaultSummary(fnName: string): string
  {
    Title(Strip(ReplaceChar(fnName, '_', ' ')))
  }

  lemma DefaultSummaryHasNoUnderscore(fnName: string)
    ensures forall i :: 0 <= i < |DefaultSummary(fnName)| ==> DefaultSummary(fnName)[i] != '_'
  {
    var spaced := ReplaceChar(fnName, '_', ' ');
    var stripped := Strip(spaced);
    var s := Title(stripped);
    forall i | 0 <= i < |s|
      ensures s[i] != '_'
    {
      assert stripped[i] in stripped;
      assert stripped[i] in spaced;
    }
  }

  lemma DefaultSummaryIsStripped(fnName: string)
    ensures var s := DefaultSummary(fnName); |s| > 0 ==> !IsSpace(s[0]) && !IsSpace(s[|s| - 1])
  {
    var stripped := Strip(ReplaceChar(fnName, '_', ' '));
    var s := Title(stripped);
    if |s| > 0 {
      assert !IsSpace(s[0]) by {
        if !IsAlpha(stripped[0]) { assert s[0] == stripped[0]; }
      }
      assert !IsSpace(s[|s| - 1]) by {
        if !IsAlpha(stripped[|s| - 1]) { assert s[|s| - 1] == stripped[|s| - 1]; }
      }
    }
  }

  lemma DefaultSummaryIsTitled(fnName: string)
    ensures var s := DefaultSummary(fnName);
      forall i :: 0 <= i < |s| && IsAlpha(s[i]) ==> (IsUpper(s[i]) <==> i == 0 || !IsAlpha(s[i - 1]))
  {
    var stripped := Strip(ReplaceChar(fnName, '_', ' '));
    var s := Title(stripped);
    forall i | 0 <= i < |s| && IsAlpha(s[i])
      ensures IsUpper(s[i]) <==> i == 0 || !IsAlpha(s[i - 1])
    {
      assert IsAlpha(stripped[i]);
      if i > 0 {
        assert IsAlpha(s[i - 1]) <==> IsAlpha(stripped[i - 1]);
      }
    }
  }

  /** A default summary has no `_`, no surrounding white space, and every
      run of letters starts with its only capital. */
  lemma DefaultSummaryShape(fnName: string)
    ensures var s := DefaultSummary(fnName);
      && (forall i :: 0 <= i < |s| ==> s[i] != '_')
      && (|s| > 0 ==> !IsSpace(s[0]) && !IsSpace(s[|s| - 1]))
      && (forall i :: 0 <= i < |s| && IsAlpha(s[i]) ==> (IsUpper(s[i]) <==> i == 0 || !IsAlpha(s[i - 1])))
  {
    DefaultSummaryHasNoUnderscore(fnName);
    DefaultSummaryIsStripped(fnName);
    DefaultSummaryIsTitled(fnName);
  }

  /** The tags after completion: the declared list (none is an empty list) with the class name appended. */
  function CompleteTags(tags: Option<seq<string>>, className: string): (ts: seq<string>)
    ensures |ts| > 0 && ts[|ts| - 1] == className
    ensures ts[..|ts| - 1] == tags.GetOr([])
  {
    match tags
    case None => [className]
    case Some(list) => list + [className]
  }

  /** `__build_fast_view_params` for one discovered handler, and the route it registers. */
  function BuildRoute(e: Entry, c: ClassObj): (r: Route)
    ensures e.meta.summary.Some? ==> r.summary == e.meta.summary.value
    ensures e.meta.summary.None? ==> r.summary == DefaultSummary(e.fn.name)
    ensures r.tags == CompleteTags(e.meta.tags, c.name)
    ensures r.path == RoutePath(c.name, e.meta.path, AutoViewPath(c))
    ensures r.verb == e.meta.verb && r.response == e.meta.response && r.responses == e.meta.responses
    ensures r.endpoint == Endpoint(c, e.name, e.fn.doc)
  {
    var summary := if e.meta.summary.None? then DefaultSummary(e.fn.name) else e.meta.summary.value;
    Route(RoutePath(c.name, e.meta.path, AutoViewPath(c)), e.meta.verb, e.meta.response, summary,
      CompleteTags(e.meta.tags, c.name), e.meta.responses, Endpoint(c, e.name, e.fn.doc))
  }

  /** One route per entry, in the entries' order. */
  function RoutesFor(es: seq<Entry>, c: ClassObj): (rs: seq<Route>)
    ensures |rs| == |es|
    ensures forall i :: 0 <= i < |rs| ==> rs[i] == BuildRoute(es[i], c)
  {
    seq(|es|, i requires 0 <= i < |es| => BuildRoute(es[i], c))
  }

  /** The routes of every discovered handler, in discovery order. */
  function RoutesOf(c: ClassObj): (rs: seq<Route>)
    ensures |rs| == |Discover(c)|
    ensures forall i :: 0 <= i < |rs| ==> rs[i] == BuildRoute(Discover(c)[i], c)
  {
    RoutesFor(Discover(c), c)
  }

  /** The router's routes so far, and the classes whose
      `_BaseViewSet__transponder` has been set. */
  datatype Registry = Registry(router: seq<Route>, marked: set<string>)

  /** `cls.__transponder is not None`: the marker is found on the class or,
      by inheritance, on any of its ancestors. */
  predicate HasTransponder(reg: Registry, c: ClassObj)
  {
    c.name in reg.marked || exists a :: a in c.ancestors && a in reg.marked
  }

  /** `register(cls, router)`. */
  function Register(reg: Registry, c: ClassObj): (r: Registry)
    ensures |reg.router| <= |r.router| && r.router[..|reg.router|] == reg.router
    ensures reg.marked <= r.marked
    ensures HasTransponder(reg, c) || c.transponder ==> r == reg
    ensures !(HasTransponder(reg, c) || c.transponder) ==>
      && r.marked == reg.marked + {c.name}
      && r.router == reg.router + RoutesOf(c)
  {
    if HasTransponder(reg, c) || c.transponder then reg
    else
      var routes := RoutesOf(c);
      assert (reg.router + routes)[..|reg.router|] == reg.router;
      Registry(reg.router + routes, reg.marked + {c.name})
  }

  /** A second `register` of the same class adds nothing. */
  lemma RegisterIsIdempotent(reg: Registry, c: ClassObj)
    ensures Register(Register(reg, c), c) == Register(reg, c)
  {
  }

  /** After a class is registered, registering any subclass (any class that
      has it as an ancestor) adds nothing: the marker is inherited. */
  lemma SubclassOfRegisteredIsSkipped(reg: Registry, parent: ClassObj, child: ClassObj)
    requires parent.name in child.ancestors && parent.ancestors <= child.ancestors
    requires !parent.transponder
    ensures Register(Register(reg, parent), child) == Register(reg, parent)
  {
    var r := Register(reg, parent);
    if !HasTransponder(reg, parent) {
      assert HasTransponder(r, child);
    } else if parent.name in reg.marked {
      assert HasTransponder(reg, child);
    } else {
      var a :| a in parent.ancestors && a in reg.marked;
      assert HasTransponder(reg, child);
    }
  }

  /** The routes of a class are one per handler it has, own or inherited,
      and none for anything else; each routes to the class itself. */
  lemma RoutesOfEveryView(c: ClassObj)
    ensures forall a :: IsView(Resolve(c), a) <==> exists i :: 0 <= i < |RoutesOf(c)| && RoutesOf(c)[i].endpoint.name == a
    ensures forall i :: 0 <= i < |RoutesOf(c)| ==> RoutesOf(c)[i].endpoint.owner == c
  {
    EveryViewHasARoute(c);
    EveryRouteIsAView(c);
  }

  lemma EveryViewHasARoute(c: ClassObj)
    ensures forall a :: IsView(Resolve(c), a) ==> exists i :: 0 <= i < |RoutesOf(c)| && RoutesOf(c)[i].endpoint.name == a
  {
    DiscoverListsExactlyTheViews(c);
    var rs := RoutesOf(c);
    var es := Discover(c);
    forall a | IsView(Resolve(c), a)
      ensures exists i :: 0 <= i < |rs| && rs[i].endpoint.name == a
    {
      var i :| 0 <= i < |es| && es[i] == EntryOf(Resolve(c), a);
      assert rs[i].endpoint.name == a;
    }
  }

  lemma EveryRouteIsAView(c: ClassObj)
    ensures forall i :: 0 <= i < |RoutesOf(c)| ==> IsView(Resolve(c), RoutesOf(c)[i].endpoint.name)
    ensures forall i :: 0 <= i < |RoutesOf(c)| ==> RoutesOf(c)[i].endpoint.owner == c
  {
    DiscoverListsExactlyTheViews(c);
    var rs := RoutesOf(c);
    var es := Discover(c);
    forall i | 0 <= i < |rs|
      ensures IsView(Resolve(c), rs[i].endpoint.name)
    {
      assert es[i] in es;
    }
  }

  // ---------------------------------------------------------------------
  // Dispatch

  /** `__create_fast_route`'s body: `getattr(call_cls(), view_name)(*args,
      **kwargs)`. A fresh instance has no attributes of its own, so the
      lookup finds the class's attribute; the call then runs its body. */
  function Dispatch(route: Route, t: Table, call: Call): Option<Outcome>
  {
    var ns := Resolve(route.endpoint.owner);
    if route.endpoint.name in ns && ns[route.endpoint.name].Func? then
      Run(ns[route.endpoint.name].f.impl, t, call)
    else None
  }

  /** Every route a registration adds answers a call exactly as the
      same-named handler of the original class does: the function whose
      metadata made the route is the one the route runs. */
  lemma DispatchRunsTheDiscoveredHandler(reg: Registry, c: ClassObj, i: nat, t: Table, call: Call)
    requires !HasTransponder(reg, c) && !c.transponder
    requires i < |Discover(c)|
    ensures var route := Register(reg, c).router[|reg.router| + i];
      && route.endpoint.owner == c
      && Dispatch(route, t, call) == Run(Discover(c)[i].fn.impl, t, call)
  {
    DiscoverListsExactlyTheViews(c);
    assert Register(reg, c).router[|reg.router| + i] == RoutesOf(c)[i];
    assert Discover(c)[i] in Discover(c);
  }
}
