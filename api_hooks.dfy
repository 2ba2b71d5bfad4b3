/**
 * The `ApiDecoratorHooks` trait: a component's class doc comment carries
 * `* @api-<key> <value>` annotations that configure its REST namespace,
 * version and subspace, and `registerEndpoints` registers the component's
 * routes under the prefix those settings give.
 */
module ApiHooks {
  import opened Wrappers
  import opened Strings
  import opened DocScan
  import opened Host

  /** One entry `$base => $methods` of the routes array, in array order. */
  datatype Route = Route(base: string, args: string)

  /** The four static properties of a class that uses the trait. */
  datatype ApiState = ApiState(namespace: string, version: string, subspace: string, routes: seq<Route>)

  /** The properties' declared initial values. */
  const InitialState: ApiState := ApiState("", "1", "", [])

  /** PHP `empty()` on a string: the empty string and "0". */
  predicate IsEmpty(v: string)
  {
    v == "" || v == "0"
  }

  /** `'%s/v%s/%s'` with a subspace, `'%s/v%s'` without one. */
  function RoutePrefix(st: ApiState): (r: string)
    ensures |st.namespace| + 2 + |st.version| <= |r|
    ensures r[..|st.namespace| + 2 + |st.version|] == st.namespace + "/v" + st.version
    ensures IsEmpty(st.subspace) ==> |r| == |st.namespace| + 2 + |st.version|
    ensures !IsEmpty(st.subspace) ==> r[|st.namespace| + 2 + |st.version|..] == "/" + st.subspace
  {
    if IsEmpty(st.subspace) then st.namespace + "/v" + st.version
    else st.namespace + "/v" + st.version + "/" + st.subspace
  }

  /**
   * What `registerEndpoints` registers: nothing while the namespace or the
   * version is empty, otherwise one route per entry, in order, under the
   * same prefix.
   */
  function EndpointRegistrations(st: ApiState): (r: seq<Registration>)
    ensures IsEmpty(st.namespace) || IsEmpty(st.version) ==> r == []
    ensures !IsEmpty(st.namespace) && !IsEmpty(st.version) ==>
      |r| == |st.routes| &&
      forall j :: 0 <= j < |r| ==> r[j] == RouteRegistered(RoutePrefix(st), st.routes[j].base, st.routes[j].args)
    decreases |st.routes|
  {
    if |st.routes| == 0 then []
    else
      var front := EndpointRegistrations(st.(routes := st.routes[..|st.routes| - 1]));
      var last := st.routes[|st.routes| - 1];
      if IsEmpty(st.namespace) || IsEmpty(st.version) then front
      else front + [RouteRegistered(RoutePrefix(st), last.base, last.args)]
  }

  /** The subspace "0" is empty in PHP, so it is left out of the prefix like the empty string. */
  lemma ZeroSubspaceDropped(st: ApiState)
    ensures RoutePrefix(st.(subspace := "0")) == RoutePrefix(st.(subspace := "")) == st.namespace + "/v" + st.version
  {
  }

  /** Namespace "acme", version "2", subspace "widgets": routes go under "acme/v2/widgets". */
  lemma PrefixExample(routes: seq<Route>)
    ensures RoutePrefix(ApiState("acme", "2", "widgets", routes)) == "acme/v2/widgets"
  {
  }

  /** A class that only sets its namespace registers under version 1. */
  lemma DefaultVersionPrefix(ns: string)
    requires !IsEmpty(ns)
    ensures RoutePrefix(InitialState.(namespace := ns)) == ns + "/v1"
  {
  }

  // ---------------------------------------------------------------------
  // Class annotations.

  /** The setters of the trait, by the key that leads to them. */
  datatype Setter = SetNamespace | SetVersion | SetSubspace | SetRoutes

  /**
   * `method_exists(self::class, 'setApi' . ucfirst($key))`: method names
   * compare case-insensitively, so only the lower-case key decides, and
   * only the four setters of the trait are considered.
   */
  function SetterFor(key: string): (r: Option<Setter>)
    ensures r.Some? ==> Lower(key) == SetterKey(r.value)
    ensures r.None? ==> forall s: Setter :: Lower(key) != SetterKey(s)
  {
    var k := Lower(key);
    if k == "namespace" then Some(SetNamespace)
    else if k == "version" then Some(SetVersion)
    else if k == "subspace" then Some(SetSubspace)
    else if k == "routes" then Some(SetRoutes)
    else None
  }

  /** The lower-case key whose setter is `'setApi' . ucfirst($key)`. */
  function SetterKey(s: Setter): string
  {
    match s
    case SetNamespace => "namespace"
    case SetVersion => "version"
    case SetSubspace => "subspace"
    case SetRoutes => "routes"
  }

  /**
   * `method_exists` finds setter `s` for the key exactly when the name the key
   * builds and the setter's name agree case-insensitively.
   */
  lemma SetterMethodExists(key: string, s: Setter)
    ensures SetterFor(key) == Some(s) <==> Lower("setApi" + UcFirst(key)) == Lower("setApi" + UcFirst(SetterKey(s)))
  {
    SetterNameLower(key);
    SetterNameLower(SetterKey(s));
    SetterKeyLower(s);
    PrefixCancels("setapi", Lower(key), SetterKey(s));
  }

  lemma SetterKeyLower(s: Setter)
    ensures Lower(SetterKey(s)) == SetterKey(s)
  {
    var k := SetterKey(s);
    assert forall q :: 0 <= q < |k| ==> IsLower(k[q]);
  }

  lemma PrefixCancels(p: string, x: string, y: string)
    ensures p + x == p + y <==> x == y
  {
    if p + x == p + y {
      assert x == (p + x)[|p|..] && y == (p + y)[|p|..];
    }
  }

  /** The method name the key builds, in lower case, is "setapi" followed by the lower-case key. */
  lemma SetterNameLower(key: string)
    ensures Lower("setApi" + UcFirst(key)) == "setapi" + Lower(key)
  {
    LowerAppend("setApi", UcFirst(key));
    LowerUcFirst(key);
    var l := Lower("setApi");
    assert l[0] == 's' && l[1] == 'e' && l[2] == 't' && l[3] == 'a' && l[4] == 'p' && l[5] == 'i';
    assert l == "setapi";
  }

  /** The value of the property a setter writes. */
  function Field(st: ApiState, s: Setter): string
    requires s != SetRoutes
  {
    match s
    case SetNamespace => st.namespace
    case SetVersion => st.version
    case SetSubspace => st.subspace
  }

  /**
   * One annotation: the matching setter runs with the value; an unknown key
   * is skipped. `setApiRoutes` declares an `array` parameter, so handing it
   * the annotation's string is a `TypeError` that ends `addApiHooks`.
   */
  function ApplyOne(st: ApiState, key: string, value: string): (r: (ApiState, bool))
    ensures r.1 <==> SetterFor(key) == Some(SetRoutes)
    ensures r.1 ==> r.0 == st
    ensures r.0.routes == st.routes
    ensures forall s :: s != SetRoutes ==> Field(r.0, s) == if SetterFor(key) == Some(s) then value else Field(st, s)
  {
    match SetterFor(key)
    case None => (st, false)
    case Some(SetNamespace) => (st.(namespace := value), false)
    case Some(SetVersion) => (st.(version := value), false)
    case Some(SetSubspace) => (st.(subspace := value), false)
    case Some(SetRoutes) => (st, true)
  }

  /** `addApiHooks` over the matches in order; the flag says that a `TypeError` stopped it. */
  function ApplyApi(st: ApiState, ms: seq<Match>): (r: (ApiState, bool))
    requires forall j :: 0 <= j < |ms| ==> ms[j].Api?
    ensures r.0.routes == st.routes
  {
    if ms == [] then (st, false)
    else
      var front := ApplyApi(st, ms[..|ms| - 1]);
      if front.1 then front
      else ApplyOne(front.0, ms[|ms| - 1].key, ms[|ms| - 1].value)
  }

  predicate HasKey(ms: seq<Match>, s: Setter)
    requires forall j :: 0 <= j < |ms| ==> ms[j].Api?
  {
    exists j :: 0 <= j < |ms| && SetterFor(ms[j].key) == Some(s)
  }

  /** The annotations fail exactly when one of them has the key `routes` (in any case). */
  lemma {:induction false} ApplyApiFailsOnRoutes(st: ApiState, ms: seq<Match>)
    requires forall j :: 0 <= j < |ms| ==> ms[j].Api?
    ensures ApplyApi(st, ms).1 <==> HasKey(ms, SetRoutes)
  {
    if ms != [] {
      var init := ms[..|ms| - 1];
      ApplyApiFailsOnRoutes(st, init);
      assert forall j :: 0 <= j < |init| ==> init[j] == ms[j];
      if HasKey(ms, SetRoutes) && !HasKey(init, SetRoutes) {
        var j :| 0 <= j < |ms| && SetterFor(ms[j].key) == Some(SetRoutes);
        assert j == |ms| - 1;
      }
    }
  }

  /** The annotation at `j` is the last one that names setter `s`. */
  predicate LastNaming(ms: seq<Match>, s: Setter, j: int)
    requires forall k :: 0 <= k < |ms| ==> ms[k].Api?
  {
    0 <= j < |ms| && SetterFor(ms[j].key) == Some(s) &&
    forall k :: j < k < |ms| ==> SetterFor(ms[k].key) != Some(s)
  }

  /**
   * When no annotation has the key `routes`, each property ends up with the
   * value of the last annotation that names it.
   */
  lemma {:induction false} LastAnnotationWins(st: ApiState, ms: seq<Match>, s: Setter)
    requires forall j :: 0 <= j < |ms| ==> ms[j].Api?
    requires !HasKey(ms, SetRoutes) && s != SetRoutes
    ensures forall j :: LastNaming(ms, s, j) ==> Field(ApplyApi(st, ms).0, s) == ms[j].value
  {
    if ms != [] {
      var init := ms[..|ms| - 1];
      var last := ms[|ms| - 1];
      LastStep(st, ms, s);
      LastAnnotationWins(st, init, s);
      forall j | LastNaming(ms, s, j)
        ensures Field(ApplyApi(st, ms).0, s) == ms[j].value
      {
        if SetterFor(last.key) != Some(s) {
          assert j < |init| && init[j] == ms[j];
          assert forall k :: j < k < |init| ==> init[k] == ms[k];
          assert LastNaming(init, s, j);
        } else {
          assert j == |ms| - 1;
        }
      }
    }
  }

  /** A property no annotation names keeps its value. */
  lemma {:induction false} UnnamedKeeps(st: ApiState, ms: seq<Match>, s: Setter)
    requires forall j :: 0 <= j < |ms| ==> ms[j].Api?
    requires !HasKey(ms, SetRoutes) && s != SetRoutes && !HasKey(ms, s)
    ensures Field(ApplyApi(st, ms).0, s) == Field(st, s)
  {
    if ms != [] {
      var init := ms[..|ms| - 1];
      LastStep(st, ms, s);
      UnnamedKeeps(st, init, s);
    }
  }

  /**
   * Without `routes` keys the last annotation writes the property it names
   * and leaves the others as the ones before it left them.
   */
  lemma LastStep(st: ApiState, ms: seq<Match>, s: Setter)
    requires forall j :: 0 <= j < |ms| ==> ms[j].Api?
    requires ms != [] && !HasKey(ms, SetRoutes) && s != SetRoutes
    ensures var init := ms[..|ms| - 1];
      && (forall j :: 0 <= j < |init| ==> init[j] == ms[j])
      && !HasKey(init, SetRoutes) && (!HasKey(ms, s) ==> !HasKey(init, s))
      && Field(ApplyApi(st, ms).0, s) ==
         if SetterFor(ms[|ms| - 1].key) == Some(s) then ms[|ms| - 1].value else Field(ApplyApi(st, init).0, s)
  {
    var init := ms[..|ms| - 1];
    var last := ms[|ms| - 1];
    assert forall j :: 0 <= j < |init| ==> init[j] == ms[j];
    ApplyApiFailsOnRoutes(st, init);
  }

  /** An annotation whose key names no setter changes nothing. */
  lemma UnknownKeyIgnored(st: ApiState, ms: seq<Match>, m: Match)
    requires forall j :: 0 <= j < |ms| ==> ms[j].Api?
    requires m.Api? && SetterFor(m.key).None?
    ensures ApplyApi(st, ms + [m]) == ApplyApi(st, ms)
  {
    assert (ms + [m])[..|ms|] == ms;
  }

  /** Once a `TypeError` has stopped the loop, later annotations do not run. */
  lemma {:induction false} FailureIsFinal(st: ApiState, ms: seq<Match>, j: nat)
    requires forall k :: 0 <= k < |ms| ==> ms[k].Api?
    requires j <= |ms| && ApplyApi(st, ms[..j]).1
    ensures ApplyApi(st, ms) == ApplyApi(st, ms[..j])
    decreases |ms| - j
  {
    if j < |ms| {
      assert ms[..j + 1][..j] == ms[..j];
      FailureIsFinal(st, ms, j + 1);
    } else {
      assert ms[..j] == ms;
    }
  }

  // ---------------------------------------------------------------------
  // The static properties of one component class.

  class ApiSettings {
    var namespace: string
    var version: string
    var subspace: string
    var routes: seq<Route>

    constructor()
      ensures State() == InitialState
    {
      namespace := "";
      version := "1";
      subspace := "";
      routes := [];
    }

    function State(): ApiState
      reads this
    {
      ApiState(namespace, version, subspace, routes)
    }

    function GetApiRoutes(): (r: seq<Route>)
      reads this
      ensures r == State().routes
    {
      routes
    }

    function GetApiNamespace(): (r: string)
      reads this
      ensures r == State().namespace
    {
      namespace
    }

    function GetApiVersion(): (r: string)
      reads this
      ensures r == State().version
    {
      version
    }

    function GetApiSubspace(): (r: string)
      reads this
      ensures r == State().subspace
    {
      subspace
    }

    method SetApiRoutes(rs: seq<Route>)
      modifies this
      ensures State() == old(State()).(routes := rs)
    {
      routes := rs;
    }

    method SetApiVersion(v: string)
      modifies this
      ensures State() == old(State()).(version := v)
    {
      version := v;
    }

    method SetApiNamespace(ns: string)
      modifies this
      ensures State() == old(State()).(namespace := ns)
    {
      namespace := ns;
    }

    method SetApiSubspace(sub: string)
      modifies this
      ensures State() == old(State()).(subspace := sub)
    {
      subspace := sub;
    }

    /** `registerEndpoints`: the loop over the routes, skipping each one while a setting is empty. */
    method RegisterEndpoints(host: HostLog)
      modifies host
      ensures host.log == old(host.log) + EndpointRegistrations(State())
    {
      var rs := GetApiRoutes();
      for j := 0 to |rs|
        invariant host.log == old(host.log) + EndpointRegistrations(State().(routes := rs[..j]))
      {
        assert State().(routes := rs[..j + 1]).(routes := rs[..j + 1][..j]) == State().(routes := rs[..j]);
        if IsEmpty(GetApiNamespace()) || IsEmpty(GetApiVersion()) {
          continue;
        }
        var route;
        if !IsEmpty(GetApiSubspace()) {
          route := GetApiNamespace() + "/v" + GetApiVersion() + "/" + GetApiSubspace();
        } else {
          route := GetApiNamespace() + "/v" + GetApiVersion();
        }
        host.Record(RouteRegistered(route, rs[j].base, rs[j].args));
      }
      assert State().(routes := rs[..|rs|]) == State();
    }

    /**
     * `addApiHooks` on the class doc comment: each `@api-<key> <value>`
     * in order; `true` when a `TypeError` ended it, with the setters that
     * ran before it still applied.
     */
    method AddApiHooks(classDoc: string) returns (typeError: bool)
      modifies this
      ensures (State(), typeError) == ApplyApi(old(State()), MatchAll(ApiPattern, classDoc))
    {
      var ms := MatchAll(ApiPattern, classDoc);
      typeError := ApplyAnnotations(ms);
    }

    /** The loop of `addApiHooks` over the matches of its pattern. */
    method ApplyAnnotations(ms: seq<Match>) returns (typeError: bool)
      requires forall j :: 0 <= j < |ms| ==> ms[j].Api?
      modifies this
      ensures (State(), typeError) == ApplyApi(old(State()), ms)
    {
      typeError := false;
      var j := 0;
      while j < |ms| && !typeError
        invariant j <= |ms|
        invariant (State(), typeError) == ApplyApi(old(State()), ms[..j])
      {
        assert ms[..j + 1][..j] == ms[..j];
        var value := ms[j].value;
        match SetterFor(ms[j].key) {
          case None =>
          case Some(SetNamespace) => SetApiNamespace(value);
          case Some(SetVersion) => SetApiVersion(value);
          case Some(SetSubspace) => SetApiSubspace(value);
          case Some(SetRoutes) => typeError := true;
        }
        j := j + 1;
      }
      if typeError {
        FailureIsFinal(old(State()), ms, j);
      } else {
        assert ms[..j] == ms;
      }
    }
  }
}
