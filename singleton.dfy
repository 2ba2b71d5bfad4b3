/**
 * `Singleton::instance`: one shared map from class name to the component
 * object of that class. The first call for a class constructs the object,
 * stores it, runs `addDocHooks` and then `init` with that call's
 * arguments; every later call, including one made from inside those steps,
 * returns the stored object and does nothing else.
 */
module Singleton {
  import opened Strings
  import opened Reflection
  import opened Host
  import opened ActionHooks

  /**
   * A component object. The PHP constructor is private and final, so the
   * registry below is the only place that creates one.
   */
  class Component {
    const cls: string

    constructor(cls: string)
      ensures this.cls == cls
    {
      this.cls := cls;
    }
  }

  /** The observable steps of `instance()`, in the order they happen. */
  datatype Step = Constructed(cls: string) | DocHooksRan(cls: string) | InitRan(cls: string, args: seq<string>)

  /** The position of a step among the steps of its class. */
  function Rank(s: Step): nat
  {
    match s
    case Constructed(_) => 0
    case DocHooksRan(_) => 1
    case InitRan(_, _) => 2
  }

  /** Steps of the same class come in strictly increasing rank: each at most once, in protocol order. */
  ghost predicate WellOrdered(t: seq<Step>)
  {
    forall i, j :: 0 <= i < j < |t| && t[i].cls == t[j].cls ==> Rank(t[i]) < Rank(t[j])
  }

  /**
   * The trace belongs to the stored classes: every step is of a stored
   * class, every stored class was constructed, and the steps are well ordered.
   */
  ghost predicate TraceOf(t: seq<Step>, stored: set<string>)
  {
    && WellOrdered(t)
    && (forall j :: 0 <= j < |t| ==> t[j].cls in stored)
    && (forall c :: c in stored ==> Constructed(c) in t)
  }

  /** How many steps of class `c` with rank `k` the trace holds. */
  function Count(t: seq<Step>, c: string, k: nat): nat
  {
    if t == [] then 0
    else Count(t[..|t| - 1], c, k) + (if t[|t| - 1].cls == c && Rank(t[|t| - 1]) == k then 1 else 0)
  }

  /** A step of class `c` with rank `k` anywhere in the trace is counted. */
  lemma {:induction false} CountPositive(t: seq<Step>, c: string, k: nat, j: nat)
    requires j < |t| && t[j].cls == c && Rank(t[j]) == k
    ensures Count(t, c, k) >= 1
  {
    if j < |t| - 1 {
      CountPositive(t[..|t| - 1], c, k, j);
    }
  }

  /**
   * In a well-ordered trace each step of each class happens at most once,
   * and exactly once when the trace holds it.
   */
  lemma {:induction false} AtMostOnce(t: seq<Step>, c: string, k: nat)
    requires WellOrdered(t)
    ensures Count(t, c, k) <= 1
    ensures Count(t, c, k) == 1 <==> exists j :: 0 <= j < |t| && t[j].cls == c && Rank(t[j]) == k
  {
    if t != [] {
      var init := t[..|t| - 1];
      assert forall i :: 0 <= i < |init| ==> init[i] == t[i];
      AtMostOnce(init, c, k);
      if Count(init, c, k) == 1 && t[|t| - 1].cls == c && Rank(t[|t| - 1]) == k {
        assert false;
      }
      if exists j :: 0 <= j < |t| && t[j].cls == c && Rank(t[j]) == k {
        var j :| 0 <= j < |t| && t[j].cls == c && Rank(t[j]) == k;
        CountPositive(t, c, k, j);
      }
    }
  }

  /** Every stored class was constructed exactly once. */
  lemma ConstructedOnce(t: seq<Step>, stored: set<string>, c: string)
    requires TraceOf(t, stored) && c in stored
    ensures Count(t, c, 0) == 1
  {
    var j :| 0 <= j < |t| && t[j] == Constructed(c);
    CountPositive(t, c, 0, j);
    AtMostOnce(t, c, 0);
  }

  /**
   * Appending the steps of a class that had no steps yet, starting with its
   * construction and in protocol order, keeps the trace one of the stored
   * classes once that class is stored too.
   */
  lemma AppendNewClass(t: seq<Step>, stored: set<string>, c: string, steps: seq<Step>)
    requires TraceOf(t, stored) && c !in stored
    requires steps != [] && steps[0] == Constructed(c) && WellOrdered(steps)
    requires forall j :: 0 <= j < |steps| ==> steps[j].cls == c
    ensures TraceOf(t + steps, stored + {c})
  {
    var u := t + steps;
    forall i, j | 0 <= i < j < |u| && u[i].cls == u[j].cls
      ensures Rank(u[i]) < Rank(u[j])
    {
      if j < |t| {
        assert u[i] == t[i] && u[j] == t[j];
      } else if i >= |t| {
        assert u[i] == steps[i - |t|] && u[j] == steps[j - |t|];
      } else {
        assert false;
      }
    }
    forall d | d in stored + {c}
      ensures Constructed(d) in u
    {
      if d == c {
        assert u[|t|] == Constructed(c);
      } else {
        var j :| 0 <= j < |t| && t[j] == Constructed(d);
        assert u[j] == Constructed(d);
      }
    }
  }

  /** The protocol steps for one class: construction, then the steps whose method exists. */
  function ProtocolSteps(c: string, hasDocHooks: bool, hasInit: bool, args: seq<string>): (r: seq<Step>)
    ensures r != [] && r[0] == Constructed(c) && WellOrdered(r)
    ensures forall j :: 0 <= j < |r| ==> r[j].cls == c
  {
    [Constructed(c)] + (if hasDocHooks then [DocHooksRan(c)] else []) + (if hasInit then [InitRan(c, args)] else [])
  }

  /** Removing more elements from a set leaves no more behind. */
  lemma DifferenceShrinks(all: set<string>, a: set<string>, b: set<string>)
    requires a <= b
    ensures |all - b| <= |all - a|
  {
    var gone := (all - a) - (all - b);
    assert all - a == (all - b) + gone;
    assert (all - b) * gone == {};
  }

  /** Storing one more class leaves fewer to construct. */
  lemma StoreShrinks(all: set<string>, a: set<string>, x: string)
    requires x in all && x !in a
    ensures |all - (a + {x})| < |all - a|
  {
    assert all - a == (all - (a + {x})) + {x};
  }

  lemma PrefixTrans<T>(a: seq<T>, b: seq<T>, c: seq<T>)
    requires a <= b && b <= c
    ensures a <= c
  {
  }

  /** The registrations `addDocHooks` makes for class `cls`, or none when the class lacks the method. */
  function FirstLog(info: ClassInfo, cls: string): seq<Registration>
  {
    if HasMethod(info, "addDocHooks") then DocHookRegistrations(cls, info.methods) else []
  }

  /** Every `init` mentions only classes the registry knows. */
  ghost predicate Closed(classes: map<string, ClassInfo>)
  {
    forall c, j :: c in classes && 0 <= j < |classes[c].initCalls| ==> classes[c].initCalls[j].cls in classes
  }

  class Registry {
    /** The component classes of the plugin, by class name. */
    const classes: map<string, ClassInfo>
    /** `static::$instances`. */
    var instances: map<string, Component>
    /** What `instance()` has done so far. */
    ghost var trace: seq<Step>

    ghost predicate Valid()
      reads this
    {
      && Closed(classes)
      && instances.Keys <= classes.Keys
      && (forall c :: c in instances ==> instances[c].cls == c)
      && TraceOf(trace, instances.Keys)
    }

    /** The steps the first `instance()` call for `cls` takes, given its arguments. */
    ghost function FirstSteps(cls: string, args: seq<string>): seq<Step>
      requires cls in classes
    {
      ProtocolSteps(cls, HasMethod(classes[cls], "addDocHooks"), HasMethod(classes[cls], "init"), args)
    }

    constructor(classes: map<string, ClassInfo>)
      requires Closed(classes)
      ensures Valid() && this.classes == classes && instances == map[] && trace == []
    {
      this.classes := classes;
      instances := map[];
      trace := [];
    }

    /**
     * The first-call part of `instance(...$params)`: construct the object,
     * store it, then, when the class has the method, run `addDocHooks`
     * (which looks the object up in the map) and start `init` with `args`.
     */
    method Construct(cls: string, args: seq<string>, host: HostLog) returns (c: Component)
      requires Valid() && cls in classes && cls !in instances
      modifies this, host
      ensures Valid() && fresh(c) && c.cls == cls
      ensures instances == old(instances)[cls := c]
      ensures trace == old(trace) + FirstSteps(cls, args)
      ensures host.log == old(host.log) + FirstLog(classes[cls], cls)
    {
      c := new Component(cls);
      instances := instances[cls := c];
      AppendNewClass(old(trace), old(instances).Keys, cls, FirstSteps(cls, args));
      assert instances.Keys == old(instances).Keys + {cls};
      trace := trace + FirstSteps(cls, args);
      assert Valid();
      var info := classes[cls];
      if HasMethod(info, "addDocHooks") {
        var stored := instances[cls];
        AddDocHooks(host, stored.cls, info.methods);
      }
    }

    /**
     * `instance(...$params)` for class `cls`. On the first call the object
     * is stored before `addDocHooks` and `init` run, and `init`'s own
     * `instance()` calls follow; every later call, including one made from
     * inside those steps, changes nothing and returns the stored object.
     */
    method Instance(cls: string, args: seq<string>, host: HostLog) returns (c: Component)
      requires Valid() && cls in classes
      modifies this, host
      ensures Valid()
      ensures cls in instances && c == instances[cls] && c.cls == cls
      ensures forall k :: k in old(instances) ==> k in instances && instances[k] == old(instances[k])
      ensures old(trace) <= trace && old(host.log) <= host.log
      ensures cls in old(instances) ==>
        c == old(instances[cls]) && instances == old(instances) && trace == old(trace) && host.log == old(host.log)
      ensures cls !in old(instances) ==>
        fresh(c) && old(trace) + FirstSteps(cls, args) <= trace && old(host.log) + FirstLog(classes[cls], cls) <= host.log
      decreases |classes.Keys - instances.Keys|, 2
    {
      if cls in instances {
        c := instances[cls];
      } else {
        c := FirstCall(cls, args, host);
      }
    }

    /** The first `instance()` call for `cls`: construction, `addDocHooks`, then `init` and its calls. */
    method FirstCall(cls: string, args: seq<string>, host: HostLog) returns (c: Component)
      requires Valid() && cls in classes && cls !in instances
      modifies this, host
      ensures Valid()
      ensures cls in instances && c == instances[cls] && c.cls == cls && fresh(c)
      ensures forall k :: k in old(instances) ==> k in instances && instances[k] == old(instances[k])
      ensures old(trace) + FirstSteps(cls, args) <= trace && old(host.log) + FirstLog(classes[cls], cls) <= host.log
      decreases |classes.Keys - instances.Keys|, 1
    {
      c := Construct(cls, args, host);
      var info := classes[cls];
      if HasMethod(info, "init") {
        assert instances.Keys == old(instances).Keys + {cls};
        StoreShrinks(classes.Keys, old(instances).Keys, cls);
        ghost var trace1, log1 := trace, host.log;
        RunInit(info.initCalls, host);
        PrefixTrans(old(trace) + FirstSteps(cls, args), trace1, trace);
        PrefixTrans(old(host.log) + FirstLog(classes[cls], cls), log1, host.log);
      }
    }

    /** The `instance()` calls `init` makes, one after the other. */
    method RunInit(calls: seq<InstanceCall>, host: HostLog)
      requires Valid() && forall j :: 0 <= j < |calls| ==> calls[j].cls in classes
      modifies this, host
      ensures Valid()
      ensures forall k :: k in old(instances) ==> k in instances && instances[k] == old(instances[k])
      ensures old(trace) <= trace && old(host.log) <= host.log
      decreases |classes.Keys - instances.Keys|, 3
    {
      for j := 0 to |calls|
        invariant Valid()
        invariant old(instances).Keys <= instances.Keys
        invariant forall k :: k in old(instances) ==> k in instances && instances[k] == old(instances[k])
        invariant old(trace) <= trace && old(host.log) <= host.log
      {
        DifferenceShrinks(classes.Keys, old(instances).Keys, instances.Keys);
        var _ := Instance(calls[j].cls, calls[j].args, host);
      }
    }
  }

  /**
   * A plugin class whose `init` asks for its own instance again. The nested
   * call finds the stored object; the second outside call ignores its
   * arguments `b`: one object, constructed once, initialised once with the
   * first call's arguments `a`. `doc` is the comment of `init`.
   */
  method ReentrantExample(doc: string, a: seq<string>, b: seq<string>)
      returns (first: Component, again: Component, ghost steps: seq<Step>)
    ensures first == again && first.cls == "Plugin"
    ensures Count(steps, "Plugin", 0) == 1 && Count(steps, "Plugin", 2) == 1
    ensures |steps| >= 2 && steps[1] == InitRan("Plugin", a)
  {
    var info := ClassInfo("Plugin", [MethodInfo("init", 0, doc)], "", [InstanceCall("Plugin", [])]);
    assert info.methods[0].name == "init";
    assert !HasMethod(info, "addDocHooks") by {
      assert Lower("addDocHooks") != Lower("init") by {
        assert |Lower("addDocHooks")| == 11 && |Lower("init")| == 4;
      }
    }
    var host := new HostLog();
    var registry := new Registry(map["Plugin" := info]);
    assert registry.FirstSteps("Plugin", a) == [Constructed("Plugin"), InitRan("Plugin", a)];
    first := registry.Instance("Plugin", a, host);
    assert registry.trace[1] == InitRan("Plugin", a);
    again := registry.Instance("Plugin", b, host);
    steps := registry.trace;
    ReentrantTrace(steps, registry.instances.Keys, "Plugin", a);
  }

  /** In a trace where `c` was constructed and its `init` ran second, both happened exactly once. */
  lemma ReentrantTrace(steps: seq<Step>, stored: set<string>, c: string, args: seq<string>)
    requires TraceOf(steps, stored) && c in stored
    requires |steps| >= 2 && steps[1] == InitRan(c, args)
    ensures Count(steps, c, 0) == 1 && Count(steps, c, 2) == 1
  {
    ConstructedOnce(steps, stored, c);
    CountPositive(steps, c, 2, 1);
    AtMostOnce(steps, c, 2);
  }
}
