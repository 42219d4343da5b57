/** The model catalogue, and its agreement with the router on the same rows and clock. */
module Catalogue {
  import opened Common
  import opened Gateway

  /** Some model with this public name clashes with a service of another owner. */
  predicate NameAmbiguous(p: Project, name: string) {
    exists m :: m in p.models && m.publicName == name && Ambiguous(p, m)
  }

  /** A service listed under its own name. */
  predicate ListsDirectly(p: Project, s: Service) {
    s.logicalModel.None? && !NameAmbiguous(p, s.name) && s.desiredReplicas > 0 && HasRoutableReplica(s)
  }

  ghost predicate ListsModel(p: Project, circuits: Circuits, m: LogicalModel, now: real) {
    m.status.ReadyToServe? && !NameAmbiguous(p, m.publicName) && SomeoneCanServe(p, circuits, m, now)
  }

  ghost predicate Listed(p: Project, circuits: Circuits, now: real, name: string) {
    || (exists s :: s in p.services && s.name == name && ListsDirectly(p, s))
    || (exists m :: m in p.models && m.publicName == name && ListsModel(p, circuits, m, now))
  }

  // -------------------------------------------------------------- building the list

  method DirectNames(p: Project) returns (names: seq<string>)
    ensures forall name :: name in names <==> exists s :: s in p.services && s.name == name && ListsDirectly(p, s)
    ensures ValidRows(p) ==> NoRepeats(names)
  {
    names := [];
    for i := 0 to |p.services|
      invariant forall name :: name in names <==>
        exists k :: 0 <= k < i && p.services[k].name == name && ListsDirectly(p, p.services[k])
      invariant ValidRows(p) ==> NoRepeats(names)
    {
      if ListsDirectly(p, p.services[i]) {
        assert ValidRows(p) ==> p.services[i].name !in names;
        names := names + [p.services[i].name];
      }
    }
  }

  /** The pass over the services that collects the models one of them can serve. */
  method AvailableModelIds(p: Project, circuits: Circuits, now: real) returns (ids: set<nat>)
    requires ValidRows(p)
    ensures forall m :: m in p.models ==> (m.id in ids <==> ListsModel(p, circuits, m, now))
  {
    ids := {};
    for i := 0 to |p.services|
      invariant forall m :: m in p.models ==> (m.id in ids <==> ListedBy(p, circuits, m, now, i))
    {
      var s := p.services[i];
      if s.logicalModel.Some? {
        var found := ModelWithId(p.models, s.logicalModel.value);
        if found.Some? {
          var m := found.value;
          OneModelPerId(p, m);
          if m.status.ReadyToServe? && !NameAmbiguous(p, m.publicName) && CanServe(p, circuits, m, s, now) {
            ids := ids + {m.id};
          }
        }
      }
    }
  }

  /** Some service among the first `n` gets `m` into the catalogue. */
  ghost predicate ListedBy(p: Project, circuits: Circuits, m: LogicalModel, now: real, n: nat)
    requires n <= |p.services|
  {
    && m.status.ReadyToServe? && !NameAmbiguous(p, m.publicName)
    && exists k :: 0 <= k < n && CanServe(p, circuits, m, p.services[k], now)
  }

  lemma OneModelPerId(p: Project, m: LogicalModel)
    requires ValidRows(p) && m in p.models
    ensures forall x :: x in p.models && x.id == m.id ==> x == m
  {
  }

  /** `list_available_models`. */
  method ListAvailableModels(p: Project, circuits: Circuits, now: real) returns (names: seq<string>)
    requires ValidRows(p)
    ensures forall name :: name in names <==> Listed(p, circuits, now, name)
    ensures NoRepeats(names)
  {
    names := DirectNames(p);
    ghost var direct := names;
    var ids := AvailableModelIds(p, circuits, now);
    for i := 0 to |p.models|
      invariant forall name :: name in names <==>
        (name in direct ||
         exists k :: 0 <= k < i && p.models[k].publicName == name && ListsModel(p, circuits, p.models[k], now))
      invariant NoRepeats(names)
    {
      var m := p.models[i];
      if m.id in ids {
        NewNameIsNew(p, m);
        assert m.publicName !in names;
        names := names + [m.publicName];
      }
    }
  }

  /** No direct entry uses the public name of a listed model. */
  lemma NewNameIsNew(p: Project, m: LogicalModel)
    requires ValidRows(p) && m in p.models && !NameAmbiguous(p, m.publicName)
    ensures !(exists s :: s in p.services && s.name == m.publicName && ListsDirectly(p, s))
  {
  }

  // --------------------------------------------------------------- agreement

  lemma ServiceFoundByName(p: Project, s: Service)
    requires ValidRows(p) && s in p.services
    ensures ServiceNamed(p.services, s.name) == Some(s)
  {
  }

  lemma ModelFoundByName(p: Project, m: LogicalModel)
    requires ValidRows(p) && m in p.models
    ensures ModelNamed(p.models, m.publicName) == Some(m)
  {
  }

  /** A directly listed service gets the request itself. */
  lemma ListedServiceIsRouted(p: Project, circuits: Circuits, cursors: Cursors, now: real, s: Service, route: Route)
    requires ValidRows(p) && s in p.services && ListsDirectly(p, s)
    requires RouteIsRight(p, circuits, cursors, s.name, {}, now, route)
    ensures route.Routed? && route.service == s
  {
    ServiceFoundByName(p, s);
    assert ModelNamed(p.models, s.name).None?;
    assert Resolve(p, s.name) == Direct(s);
    var order := Order(p, Direct(s), CursorOf(cursors, Direct(s)));
    assert order[0] == s && Takes(circuits, s, {}, now);
  }

  lemma EligibleTakesExactlyWhenItCanServe(p: Project, circuits: Circuits, m: LogicalModel, s: Service, now: real)
    requires Belongs(s, m.id) && s.desiredReplicas > 0 && Eligible(p, m, s)
    ensures Takes(circuits, s, {}, now) <==> CanServe(p, circuits, m, s, now)
  {
  }

  lemma OrderHoldsTheEligible(p: Project, m: LogicalModel, cursor: nat, s: Service)
    ensures s in Order(p, Logical(m), cursor) <==> s in EligibleServices(p, m)
  {
  }

  /** Some candidate takes the request exactly when someone can serve the model. */
  lemma SomeoneTakesExactlyWhenSomeoneCanServe(p: Project, circuits: Circuits, m: LogicalModel, cursor: nat, now: real)
    ensures (exists s :: s in Order(p, Logical(m), cursor) && Takes(circuits, s, {}, now))
            <==> SomeoneCanServe(p, circuits, m, now)
  {
    forall s ensures (s in Order(p, Logical(m), cursor) && Takes(circuits, s, {}, now))
                     <==> (s in p.services && CanServe(p, circuits, m, s, now))
    {
      OrderHoldsTheEligible(p, m, cursor, s);
      EligibleServicesAre(p, m, s);
      if s in EligibleServices(p, m) {
        EligibleTakesExactlyWhenItCanServe(p, circuits, m, s, now);
      }
    }
  }

  lemma RoutedExactlyWhenSomeoneTakes(p: Project, circuits: Circuits, cursors: Cursors, name: string, m: LogicalModel,
                                      now: real, route: Route)
    requires Resolve(p, name) == Logical(m)
    requires RouteIsRight(p, circuits, cursors, name, {}, now, route)
    ensures route.Routed? <==>
      exists s :: s in Order(p, Logical(m), CursorOf(cursors, Logical(m))) && Takes(circuits, s, {}, now)
  {
  }

  lemma UnambiguousName(p: Project, m: LogicalModel)
    requires ValidRows(p) && m in p.models
    ensures NameAmbiguous(p, m.publicName) <==> Ambiguous(p, m)
  {
  }

  /** A logical model's public name is listed exactly when routing that name succeeds. */
  lemma ModelListedExactlyWhenRouted(p: Project, circuits: Circuits, cursors: Cursors, now: real,
                                     m: LogicalModel, route: Route)
    requires ValidRows(p) && m in p.models
    requires RouteIsRight(p, circuits, cursors, m.publicName, {}, now, route)
    ensures ListsModel(p, circuits, m, now) <==> route.Routed?
  {
    ModelFoundByName(p, m);
    UnambiguousName(p, m);
    if Resolve(p, m.publicName).Logical? {
      RoutedExactlyWhenSomeoneTakes(p, circuits, cursors, m.publicName, m, now, route);
      SomeoneTakesExactlyWhenSomeoneCanServe(p, circuits, m, CursorOf(cursors, Logical(m)), now);
    }
  }

  /** Everything the catalogue lists gets a route on the same rows and clock. */
  lemma ListedNamesAreRouted(p: Project, circuits: Circuits, cursors: Cursors, now: real, name: string, route: Route)
    requires ValidRows(p) && Listed(p, circuits, now, name)
    requires RouteIsRight(p, circuits, cursors, name, {}, now, route)
    ensures route.Routed?
  {
    if s :| s in p.services && s.name == name && ListsDirectly(p, s) {
      ListedServiceIsRouted(p, circuits, cursors, now, s, route);
    } else {
      var m :| m in p.models && m.publicName == name && ListsModel(p, circuits, m, now);
      ModelListedExactlyWhenRouted(p, circuits, cursors, now, m, route);
    }
  }

  /** The name of a service under a ready logical model that someone can serve, and no model's public name. */
  ghost predicate NamesAMember(p: Project, circuits: Circuits, now: real, name: string) {
    && ModelNamed(p.models, name).None?
    && exists s, m :: s in p.services && s.name == name && m in p.models && Belongs(s, m.id)
                      && m.status.ReadyToServe? && SomeoneCanServe(p, circuits, m, now)
  }

  lemma MemberResolves(p: Project, s: Service, m: LogicalModel)
    requires ValidRows(p) && s in p.services && m in p.models && Belongs(s, m.id) && ModelNamed(p.models, s.name).None?
    ensures Resolve(p, s.name) == if m.status.ReadyToServe? then Logical(m) else Nowhere
  {
    ServiceFoundByName(p, s);
    OneModelPerId(p, m);
  }

  lemma MemberRoutedExactly(p: Project, circuits: Circuits, cursors: Cursors, now: real, s: Service, m: LogicalModel, route: Route)
    requires ValidRows(p) && s in p.services && m in p.models && Belongs(s, m.id) && ModelNamed(p.models, s.name).None?
    requires RouteIsRight(p, circuits, cursors, s.name, {}, now, route)
    ensures route.Routed? <==> m.status.ReadyToServe? && SomeoneCanServe(p, circuits, m, now)
  {
    MemberResolves(p, s, m);
    if m.status.ReadyToServe? {
      RoutedExactlyWhenSomeoneTakes(p, circuits, cursors, s.name, m, now, route);
      SomeoneTakesExactlyWhenSomeoneCanServe(p, circuits, m, CursorOf(cursors, Logical(m)), now);
    }
  }

  /** A name that is no model's: routed exactly as a direct service or as a model's member. */
  lemma ServiceNameRoutedExactly(p: Project, circuits: Circuits, cursors: Cursors, now: real, name: string, route: Route)
    requires ValidRows(p) && ModelNamed(p.models, name).None?
    requires RouteIsRight(p, circuits, cursors, name, {}, now, route)
    ensures route.Routed? <==>
      (exists s :: s in p.services && s.name == name && ListsDirectly(p, s)) || NamesAMember(p, circuits, now, name)
  {
    var anchor := ServiceNamed(p.services, name);
    if anchor.Some? {
      var s := anchor.value;
      assert forall other :: other in p.services && other.name == name ==> other == s;
      if s.logicalModel.None? {
        assert !NameAmbiguous(p, name) && Resolve(p, name) == Direct(s);
        assert Order(p, Direct(s), CursorOf(cursors, Direct(s))) == [s] && [s][0] == s;
      } else {
        var model := ModelWithId(p.models, s.logicalModel.value);
        if model.Some? {
          OneModelPerId(p, model.value);
          MemberRoutedExactly(p, circuits, cursors, now, s, model.value, route);
        }
      }
    }
  }

  /** The names that get a route are exactly the listed ones and those of members of served models. */
  lemma RoutedNamesExactly(p: Project, circuits: Circuits, cursors: Cursors, now: real, name: string, route: Route)
    requires ValidRows(p)
    requires RouteIsRight(p, circuits, cursors, name, {}, now, route)
    ensures route.Routed? <==> Listed(p, circuits, now, name) || NamesAMember(p, circuits, now, name)
  {
    var model := ModelNamed(p.models, name);
    if model.None? {
      ServiceNameRoutedExactly(p, circuits, cursors, now, name, route);
    } else {
      ModelListedExactlyWhenRouted(p, circuits, cursors, now, model.value, route);
      assert forall m :: m in p.models && m.publicName == name ==> m == model.value;
      if Listed(p, circuits, now, name) {
        ListedNamesAreRouted(p, circuits, cursors, now, name, route);
      }
    }
  }
}
