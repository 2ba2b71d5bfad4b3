/**
 * The `ActionDecoratorHooks` trait: `addDocHooks` turns the doc-comment
 * annotations of a component's methods into host registrations, through the
 * `addAction`/`addFilter`/`addShortcode`/`addHook` helpers.
 */
module ActionHooks {
  import opened Wrappers
  import opened Strings
  import opened DocScan
  import opened Reflection
  import opened Host

  /** PHP_INT_MAX on a 64-bit build. */
  const PhpIntMax: int := 0x7FFF_FFFF_FFFF_FFFF

  /** The two keys of the arguments array the helpers read: `'priority'` and `'arg_count'`. */
  datatype ArgKey = Priority | ArgCount

  /** `compact('priority', 'arg_count')` and the arrays merged with it. */
  type Args = map<ArgKey, int>

  /** `array_merge` of two string-keyed arrays: a key of `args` overrides the default. */
  function Merge(defaults: Args, args: Args): (r: Args)
    ensures r.Keys == defaults.Keys + args.Keys
    ensures forall k :: k in args ==> r[k] == args[k]
    ensures forall k :: k in defaults && k !in args ==> r[k] == defaults[k]
  {
    defaults + args
  }

  /** The defaults `addAction` and `addFilter` merge under their arguments. */
  const HookDefaults: Args := map[Priority := 10, ArgCount := PhpIntMax]

  /** `$args[$key] ?? $default`. */
  function Lookup(args: Args, key: ArgKey, default: int): (r: int)
    ensures key in args ==> r == args[key]
    ensures key !in args ==> r == default
  {
    if key in args then args[key] else default
  }

  /** `addHook`: forwards to `add_<type>`, with 10 and PHP_INT_MAX where an argument is missing. */
  function AddHook(kind: HookKind, name: string, callback: Callback, args: Args): (r: Registration)
    ensures r.HookAdded? && r.kind == kind && r.name == name && r.callback == callback
    ensures Priority in args ==> r.priority == args[Priority]
    ensures Priority !in args ==> r.priority == 10
    ensures ArgCount in args ==> r.argCount == args[ArgCount]
    ensures ArgCount !in args ==> r.argCount == PhpIntMax
  {
    HookAdded(kind, name, callback, Lookup(args, Priority, 10), Lookup(args, ArgCount, PhpIntMax))
  }

  function AddAction(name: string, callback: Callback, args: Args): (r: Registration)
    ensures r.HookAdded? && r.kind == Action && r.name == name && r.callback == callback
  {
    AddHook(Action, name, callback, Merge(HookDefaults, args))
  }

  function AddFilter(name: string, callback: Callback, args: Args): (r: Registration)
    ensures r.HookAdded? && r.kind == Filter && r.name == name && r.callback == callback
  {
    AddHook(Filter, name, callback, Merge(HookDefaults, args))
  }

  /** `addShortcode` takes no arguments array: `addHook` falls back to its own defaults. */
  function AddShortcode(name: string, callback: Callback): (r: Registration)
    ensures r == HookAdded(Shortcode, name, callback, 10, PhpIntMax)
  {
    AddHook(Shortcode, name, callback, map[])
  }

  /**
   * `call_user_func([self::class, 'add' . ucfirst($type)], $name, $callback, $args)`:
   * the pattern only lets the three kinds through, so the method always exists;
   * `addShortcode` ignores the extra argument.
   */
  function AddByKind(kind: HookKind, name: string, callback: Callback, args: Args): (r: Registration)
    ensures r.HookAdded? && r.kind == kind && r.name == name && r.callback == callback
  {
    match kind
    case Filter => AddFilter(name, callback, args)
    case Action => AddAction(name, callback, args)
    case Shortcode => AddShortcode(name, callback)
  }

  /**
   * With no arguments, `addAction` and `addFilter` register priority 10 and
   * PHP_INT_MAX accepted arguments.
   */
  lemma AddActionDefaults(name: string, callback: Callback)
    ensures AddAction(name, callback, map[]) == HookAdded(Action, name, callback, 10, PhpIntMax)
    ensures AddFilter(name, callback, map[]) == HookAdded(Filter, name, callback, 10, PhpIntMax)
  {
  }

  /**
   * The merge in `addAction`/`addFilter` changes nothing: `addHook`'s own
   * fall-backs are the same defaults, so every caller's key wins and every
   * missing key gets the same value either way.
   */
  lemma MergeIsRedundant(kind: HookKind, name: string, callback: Callback, args: Args)
    requires kind != Shortcode
    ensures AddByKind(kind, name, callback, args) == AddHook(kind, name, callback, args)
  {
    var merged := Merge(HookDefaults, args);
    assert Lookup(merged, Priority, 10) == Lookup(args, Priority, 10);
    assert Lookup(merged, ArgCount, PhpIntMax) == Lookup(args, ArgCount, PhpIntMax);
  }

  /** A shortcode's registration never depends on the arguments it is handed. */
  lemma ShortcodeIgnoresArgs(name: string, callback: Callback, a: Args, b: Args)
    ensures AddByKind(Shortcode, name, callback, a) == AddByKind(Shortcode, name, callback, b)
    ensures AddByKind(Shortcode, name, callback, a).priority == 10
    ensures AddByKind(Shortcode, name, callback, a).argCount == PhpIntMax
  {
  }

  // ---------------------------------------------------------------------
  // Priorities written in annotations.

  /** The number a string of decimal digits denotes. */
  function DigitsValue(d: string): nat
    requires forall k :: 0 <= k < |d| ==> IsDigit(d[k])
  {
    if d == [] then 0
    else
      assert IsDigit(d[|d| - 1]);
      DigitsValue(d[..|d| - 1]) * 10 + (d[|d| - 1] as int - '0' as int)
  }

  /** `intval` of a digit string: its value, saturated at PHP_INT_MAX. */
  function IntVal(d: string): (r: int)
    requires IsDigits(d)
    ensures 0 <= r <= PhpIntMax
    ensures DigitsValue(d) <= PhpIntMax ==> r == DigitsValue(d)
    ensures DigitsValue(d) > PhpIntMax ==> r == PhpIntMax
  {
    if DigitsValue(d) > PhpIntMax then PhpIntMax else DigitsValue(d)
  }

  /**
   * `empty($match['priority']) ? 11 : intval($match['priority'])`: a missing
   * priority and the string "0" are both empty in PHP.
   */
  function AnnotationPriority(p: Option<string>): (r: int)
    requires p.Some? ==> IsDigits(p.value)
    ensures 0 <= r <= PhpIntMax
    ensures p.None? || p == Some("0") ==> r == 11
    ensures p.Some? && p.value != "0" ==> r == IntVal(p.value)
  {
    if p.None? || p.value == "0" then 11 else IntVal(p.value)
  }

  lemma {:induction false} DigitsValueZero(d: string)
    requires forall k :: 0 <= k < |d| ==> IsDigit(d[k])
    ensures DigitsValue(d) == 0 <==> forall k :: 0 <= k < |d| ==> d[k] == '0'
  {
    if d != [] {
      var init := d[..|d| - 1];
      assert forall k :: 0 <= k < |init| ==> init[k] == d[k];
      DigitsValueZero(init);
      if DigitsValue(d) == 0 {
        forall k | 0 <= k < |d| ensures d[k] == '0' {
          if k < |init| { assert init[k] == '0'; }
        }
      }
    }
  }

  /**
   * An annotation asks for priority 0 only by padding: `, 00` registers at
   * 0, while `, 0` is empty in PHP and registers at 11.
   */
  lemma PriorityZero(d: string)
    requires IsDigits(d)
    ensures AnnotationPriority(Some(d)) == 0 <==> d != "0" && forall k :: 0 <= k < |d| ==> d[k] == '0'
  {
    DigitsValueZero(d);
  }

  /** The canonical decimal text of a positive number. */
  function Decimal(n: nat): (r: string)
    requires n > 0
    ensures IsDigits(r) && r[0] != '0'
  {
    if n < 10 then [('0' as int + n) as char]
    else Decimal(n / 10) + [('0' as int + n % 10) as char]
  }

  lemma {:induction false} DecimalValue(n: nat)
    requires n > 0
    ensures DigitsValue(Decimal(n)) == n
  {
    var d := Decimal(n);
    if n >= 10 {
      DecimalValue(n / 10);
      assert d[..|d| - 1] == Decimal(n / 10);
    }
  }

  /** Any priority from 1 to PHP_INT_MAX, written in decimal, is registered as written. */
  lemma WrittenPriority(n: nat)
    requires 0 < n <= PhpIntMax
    ensures AnnotationPriority(Some(Decimal(n))) == n
  {
    DecimalValue(n);
  }

  // ---------------------------------------------------------------------
  // What one method's doc comment registers.

  function MethodCallback(owner: string, m: MethodInfo): Callback
  {
    Callback(owner, m.name)
  }

  /** The `compact('priority', 'arg_count')` that goes with an annotation. */
  function AnnotationArgs(priority: int, m: MethodInfo): (r: Args)
    ensures r.Keys == {Priority, ArgCount}
    ensures r[Priority] == priority && r[ArgCount] == m.paramCount
    ensures Merge(HookDefaults, r) == r
  {
    map[Priority := priority, ArgCount := m.paramCount]
  }

  /**
   * One `@filter`/`@action`/`@shortcode` match: a filter or an action gets
   * the annotation's priority and the method's parameter count; a shortcode
   * always gets 10 and PHP_INT_MAX.
   */
  function HookRegistration(owner: string, m: MethodInfo, hm: Match): (r: Registration)
    requires Conforms(HookPattern, hm)
    ensures r.HookAdded? && r.kind == hm.kind && r.name == hm.name
    ensures r.callback == MethodCallback(owner, m)
    ensures hm.kind != Shortcode ==> r.priority == AnnotationPriority(hm.priority) && r.argCount == m.paramCount
    ensures hm.kind == Shortcode ==> r.priority == 10 && r.argCount == PhpIntMax
  {
    var args := AnnotationArgs(AnnotationPriority(hm.priority), m);
    AddByKind(hm.kind, hm.name, MethodCallback(owner, m), args)
  }

  function HookRegistrationsOf(owner: string, m: MethodInfo, ms: seq<Match>): seq<Registration>
    requires forall j :: 0 <= j < |ms| ==> Conforms(HookPattern, ms[j])
  {
    seq(|ms|, j requires 0 <= j < |ms| => HookRegistration(owner, m, ms[j]))
  }

  /** `WP_CLI::add_command($name, $callback)`, the name `null` when none was caught. */
  function CommandRegistration(owner: string, m: MethodInfo, cm: Match): (r: Registration)
    requires Conforms(CommandPattern, cm)
    ensures r.CommandAdded? && r.command == cm.command && r.callback == MethodCallback(owner, m)
  {
    CommandAdded(cm.command, MethodCallback(owner, m))
  }

  function CommandRegistrationsOf(owner: string, m: MethodInfo, ms: seq<Match>): seq<Registration>
    requires forall j :: 0 <= j < |ms| ==> Conforms(CommandPattern, ms[j])
  {
    seq(|ms|, j requires 0 <= j < |ms| => CommandRegistration(owner, m, ms[j]))
  }

  /**
   * The ajax name as the code is written: with no name in the annotation it
   * calls `StringUtil::toSnakeCase`, so PHP resolves the class name in the
   * trait's namespace to `GreatScottPlugins\WordPressPlugin\Hooks\StringUtil`;
   * no such class is declared or imported, and PHP stops with a fatal error.
   */
  function AjaxNameAsWritten(m: MethodInfo, am: Match): (r: Result<string>)
    requires Conforms(AjaxPattern, am)
    ensures am.handle.Some? ==> r == Success(am.handle.value)
    ensures am.handle.None? ==> r.Failure?
  {
    match am.handle
    case Some(name) => Success(name)
    case None => Failure("Class \"GreatScottPlugins\\WordPressPlugin\\Hooks\\StringUtil\" not found")
  }

  /** The ajax name as intended: the annotation's name, else the method name in snake case. */
  function AjaxName(m: MethodInfo, am: Match): (r: string)
    requires Conforms(AjaxPattern, am)
    ensures am.handle.Some? ==> r == am.handle.value
    ensures am.handle.None? ==> r == ToSnakeCase(m.name)
  {
    match am.handle
    case Some(name) => name
    case None => ToSnakeCase(m.name)
  }

  /** `sprintf('%s_%s', $ajax_hook, $name)`. */
  function AjaxHookName(prefix: string, name: string): (r: string)
    ensures |r| == |prefix| + 1 + |name|
  {
    prefix + "_" + name
  }

  /** The hook name is the prefix, one underscore, then the handler's name. */
  lemma AjaxHookNameParts(prefix: string, name: string)
    ensures AjaxHookName(prefix, name)[..|prefix|] == prefix
    ensures AjaxHookName(prefix, name)[|prefix|] == '_'
    ensures AjaxHookName(prefix, name)[|prefix| + 1..] == name
  {
    var r := AjaxHookName(prefix, name);
    assert r == (prefix + "_") + name;
    assert r[..|prefix| + 1] == prefix + "_";
    assert r[..|prefix|] == (prefix + "_")[..|prefix|];
  }

  /** Under one prefix, two handler names give the same hook only when they are equal. */
  lemma AjaxHookNameInjective(prefix: string, a: string, b: string)
    requires AjaxHookName(prefix, a) == AjaxHookName(prefix, b)
    ensures a == b
  {
    AjaxHookNameParts(prefix, a);
    AjaxHookNameParts(prefix, b);
  }

  /** The two prefixes, in the order the inner loop visits them. */
  const AjaxPrefixes: seq<string> := ["wp_ajax", "wp_ajax_nopriv"]

  /**
   * One `@ajax` match: an action on `wp_ajax_<name>` and one on
   * `wp_ajax_nopriv_<name>`. Its pattern has no priority group, so the
   * priority is always the empty case, 11.
   */
  function AjaxRegistration(owner: string, m: MethodInfo, am: Match, prefix: string): (r: Registration)
    requires Conforms(AjaxPattern, am)
    ensures r == HookAdded(Action, AjaxHookName(prefix, AjaxName(m, am)), MethodCallback(owner, m), 11, m.paramCount)
  {
    var args := AnnotationArgs(AnnotationPriority(None), m);
    AddAction(AjaxHookName(prefix, AjaxName(m, am)), MethodCallback(owner, m), args)
  }

  /** The two registrations of one ajax match: the public hook first, then the `nopriv` one. */
  function AjaxPair(owner: string, m: MethodInfo, am: Match): (r: seq<Registration>)
    requires Conforms(AjaxPattern, am)
    ensures |r| == 2
    ensures r[0] == HookAdded(Action, "wp_ajax_" + AjaxName(m, am), MethodCallback(owner, m), 11, m.paramCount)
    ensures r[1] == HookAdded(Action, "wp_ajax_nopriv_" + AjaxName(m, am), MethodCallback(owner, m), 11, m.paramCount)
  {
    [AjaxRegistration(owner, m, am, AjaxPrefixes[0]), AjaxRegistration(owner, m, am, AjaxPrefixes[1])]
  }

  function AjaxRegistrationsOf(owner: string, m: MethodInfo, ms: seq<Match>): seq<Registration>
    requires forall j :: 0 <= j < |ms| ==> Conforms(AjaxPattern, ms[j])
  {
    if ms == [] then [] else AjaxRegistrationsOf(owner, m, ms[..|ms| - 1]) + AjaxPair(owner, m, ms[|ms| - 1])
  }

  /** Every ajax match gives exactly two registrations, in match order. */
  lemma {:induction false} AjaxRegistrationsShape(owner: string, m: MethodInfo, ms: seq<Match>)
    requires forall j :: 0 <= j < |ms| ==> Conforms(AjaxPattern, ms[j])
    ensures |AjaxRegistrationsOf(owner, m, ms)| == 2 * |ms|
    ensures forall j :: 0 <= j < |ms| ==>
      AjaxRegistrationsOf(owner, m, ms)[2 * j] == AjaxPair(owner, m, ms[j])[0] &&
      AjaxRegistrationsOf(owner, m, ms)[2 * j + 1] == AjaxPair(owner, m, ms[j])[1]
  {
    if ms != [] {
      var init := ms[..|ms| - 1];
      AjaxRegistrationsShape(owner, m, init);
      var r := AjaxRegistrationsOf(owner, m, ms);
      var front := AjaxRegistrationsOf(owner, m, init);
      var last := AjaxPair(owner, m, ms[|ms| - 1]);
      assert r == front + last;
      forall j | 0 <= j < |ms|
        ensures r[2 * j] == AjaxPair(owner, m, ms[j])[0] && r[2 * j + 1] == AjaxPair(owner, m, ms[j])[1]
      {
        PairsAppend(front, last, |init|, j);
        if j < |init| {
          assert init[j] == ms[j];
        }
      }
    }
  }

  /** Appending a pair to a sequence of pairs keeps the pairs in front and adds the new one last. */
  lemma PairsAppend<T>(front: seq<T>, last: seq<T>, n: nat, j: nat)
    requires |front| == 2 * n && |last| == 2 && j <= n
    ensures j < n ==> (front + last)[2 * j] == front[2 * j] && (front + last)[2 * j + 1] == front[2 * j + 1]
    ensures j == n ==> (front + last)[2 * j] == last[0] && (front + last)[2 * j + 1] == last[1]
  { }

  /** Everything one method registers: hooks, then commands, then ajax handlers. */
  function MethodRegistrations(owner: string, m: MethodInfo): (r: seq<Registration>)
    ensures |r| == |MatchAll(HookPattern, m.doc)| + |MatchAll(CommandPattern, m.doc)| + 2 * |MatchAll(AjaxPattern, m.doc)|
  {
    AjaxRegistrationsShape(owner, m, MatchAll(AjaxPattern, m.doc));
    HookRegistrationsOf(owner, m, MatchAll(HookPattern, m.doc))
      + CommandRegistrationsOf(owner, m, MatchAll(CommandPattern, m.doc))
      + AjaxRegistrationsOf(owner, m, MatchAll(AjaxPattern, m.doc))
  }

  /**
   * One registration per hook match and per command match and two per ajax
   * match, in document order within each scan: the hooks first, then the
   * commands, then the ajax handlers.
   */
  lemma {:induction false} MethodRegistrationsOrder(owner: string, m: MethodInfo, h: seq<Match>, c: seq<Match>, a: seq<Match>)
    requires h == MatchAll(HookPattern, m.doc) && c == MatchAll(CommandPattern, m.doc)
    requires a == MatchAll(AjaxPattern, m.doc)
    ensures |MethodRegistrations(owner, m)| == |h| + |c| + 2 * |a|
    ensures forall j :: 0 <= j < |h| ==> MethodRegistrations(owner, m)[j] == HookRegistration(owner, m, h[j])
    ensures forall j :: 0 <= j < |c| ==> MethodRegistrations(owner, m)[|h| + j] == CommandRegistration(owner, m, c[j])
    ensures forall j :: 0 <= j < |a| ==>
      MethodRegistrations(owner, m)[|h| + |c| + 2 * j] == AjaxPair(owner, m, a[j])[0] &&
      MethodRegistrations(owner, m)[|h| + |c| + 2 * j + 1] == AjaxPair(owner, m, a[j])[1]
  {
    assert MethodRegistrations(owner, m)
        == HookRegistrationsOf(owner, m, h) + CommandRegistrationsOf(owner, m, c) + AjaxRegistrationsOf(owner, m, a);
    RegistrationsLayout(owner, m, h, c, a);
  }

  /** The layout of the three groups of registrations, whatever the matches. */
  lemma {:induction false} RegistrationsLayout(owner: string, m: MethodInfo, h: seq<Match>, c: seq<Match>, a: seq<Match>)
    requires forall j :: 0 <= j < |h| ==> Conforms(HookPattern, h[j])
    requires forall j :: 0 <= j < |c| ==> Conforms(CommandPattern, c[j])
    requires forall j :: 0 <= j < |a| ==> Conforms(AjaxPattern, a[j])
    ensures var r := HookRegistrationsOf(owner, m, h) + CommandRegistrationsOf(owner, m, c) + AjaxRegistrationsOf(owner, m, a);
      && |r| == |h| + |c| + 2 * |a|
      && (forall j :: 0 <= j < |h| ==> r[j] == HookRegistration(owner, m, h[j]))
      && (forall j :: 0 <= j < |c| ==> r[|h| + j] == CommandRegistration(owner, m, c[j]))
      && (forall j :: 0 <= j < |a| ==>
            r[|h| + |c| + 2 * j] == AjaxPair(owner, m, a[j])[0] &&
            r[|h| + |c| + 2 * j + 1] == AjaxPair(owner, m, a[j])[1])
  {
    var hr := HookRegistrationsOf(owner, m, h);
    var cr := CommandRegistrationsOf(owner, m, c);
    var ar := AjaxRegistrationsOf(owner, m, a);
    AjaxRegistrationsShape(owner, m, a);
    ThreeParts(hr, cr, ar);
  }

  /** Where the elements of the three parts of `x + y + z` sit. */
  lemma ThreeParts<T>(x: seq<T>, y: seq<T>, z: seq<T>)
    ensures forall j :: 0 <= j < |x| ==> (x + y + z)[j] == x[j]
    ensures forall j :: 0 <= j < |y| ==> (x + y + z)[|x| + j] == y[j]
    ensures forall j :: 0 <= j < |z| ==> (x + y + z)[|x| + |y| + j] == z[j]
  { }

  /** The concatenation of a sequence of sequences, in order. */
  function Flatten<T>(xs: seq<seq<T>>): seq<T>
  {
    if xs == [] then [] else Flatten(xs[..|xs| - 1]) + xs[|xs| - 1]
  }

  /** What each method registers, method by method in reflection order. */
  function PerMethod(owner: string, methods: seq<MethodInfo>): (r: seq<seq<Registration>>)
    ensures |r| == |methods|
  {
    seq(|methods|, i requires 0 <= i < |methods| => MethodRegistrations(owner, methods[i]))
  }

  /** Everything `addDocHooks` registers for the methods in reflection order. */
  function DocHookRegistrations(owner: string, methods: seq<MethodInfo>): (r: seq<Registration>)
    ensures methods == [] ==> r == []
    ensures |methods| == 1 ==> r == MethodRegistrations(owner, methods[0])
  {
    var per := PerMethod(owner, methods);
    if |methods| == 1 then
      FlattenOne(per);
      Flatten(per)
    else Flatten(per)
  }

  lemma FlattenOne<T>(xs: seq<seq<T>>)
    requires |xs| == 1
    ensures Flatten(xs) == xs[0]
  {
    assert xs[..0] == [];
  }

  /**
   * The methods are handled one after the other and independently: what two
   * runs of methods register is what the first registers followed by what
   * the second registers.
   */
  lemma DocHookRegistrationsAppend(owner: string, xs: seq<MethodInfo>, ys: seq<MethodInfo>)
    ensures DocHookRegistrations(owner, xs + ys) == DocHookRegistrations(owner, xs) + DocHookRegistrations(owner, ys)
  {
    PerMethodAppend(owner, xs, ys);
    FlattenAppend(PerMethod(owner, xs), PerMethod(owner, ys));
  }

  lemma PerMethodAppend(owner: string, xs: seq<MethodInfo>, ys: seq<MethodInfo>)
    ensures PerMethod(owner, xs + ys) == PerMethod(owner, xs) + PerMethod(owner, ys)
  {
    var a, b, c := PerMethod(owner, xs), PerMethod(owner, ys), PerMethod(owner, xs + ys);
    forall i | 0 <= i < |c|
      ensures c[i] == (a + b)[i]
    {
      if i < |xs| {
        PerMethodAt(owner, xs + ys, xs, i, i);
        assert (a + b)[i] == a[i];
      } else {
        PerMethodAt(owner, xs + ys, ys, i, i - |xs|);
        assert (a + b)[i] == b[i - |xs|];
      }
    }
    assert |c| == |a + b|;
  }

  /** Two method lists that agree at a position register the same there. */
  lemma PerMethodAt(owner: string, ms: seq<MethodInfo>, ns: seq<MethodInfo>, i: nat, j: nat)
    requires i < |ms| && j < |ns| && ms[i] == ns[j]
    ensures PerMethod(owner, ms)[i] == PerMethod(owner, ns)[j]
  {
  }

  lemma {:induction false} FlattenAppend<T>(xs: seq<seq<T>>, ys: seq<seq<T>>)
    ensures Flatten(xs + ys) == Flatten(xs) + Flatten(ys)
    decreases |ys|
  {
    if ys == [] {
      assert xs + ys == xs;
    } else {
      var init := ys[..|ys| - 1];
      assert (xs + ys)[..|xs + ys| - 1] == xs + init;
      FlattenAppend(xs, init);
      AppendAssoc(Flatten(xs), Flatten(init), ys[|ys| - 1]);
    }
  }

  /**
   * `addDocHooks`: for each method in reflection order, one host call per
   * hook match, then per command match, then two per ajax match.
   */
  method AddDocHooks(host: HostLog, owner: string, methods: seq<MethodInfo>)
    modifies host
    ensures host.log == old(host.log) + DocHookRegistrations(owner, methods)
  {
    ghost var per := PerMethod(owner, methods);
    for i := 0 to |methods|
      invariant host.log == old(host.log) + Flatten(per[..i])
    {
      RegisterMethod(host, owner, methods[i]);
      FlattenStep(per, i);
      AppendAssoc(old(host.log), Flatten(per[..i]), per[i]);
    }
    assert per[..|methods|] == per;
  }

  lemma FlattenStep<T>(xs: seq<seq<T>>, i: nat)
    requires i < |xs|
    ensures Flatten(xs[..i + 1]) == Flatten(xs[..i]) + xs[i]
  {
    assert xs[..i + 1][..i] == xs[..i];
  }

  /** The body of the loop over the methods. */
  method RegisterMethod(host: HostLog, owner: string, m: MethodInfo)
    modifies host
    ensures host.log == old(host.log) + MethodRegistrations(owner, m)
  {
    var hooks := MatchAll(HookPattern, m.doc);
    RegisterHooks(host, owner, m, hooks);
    var commands := MatchAll(CommandPattern, m.doc);
    RegisterCommands(host, owner, m, commands);
    var ajax := MatchAll(AjaxPattern, m.doc);
    RegisterAjax(host, owner, m, ajax);
    AppendThree(old(host.log), HookRegistrationsOf(owner, m, hooks),
                CommandRegistrationsOf(owner, m, commands), AjaxRegistrationsOf(owner, m, ajax));
  }

  lemma AppendAssoc<T>(a: seq<T>, x: seq<T>, y: seq<T>)
    ensures a + x + y == a + (x + y)
  {
  }

  lemma AppendThree<T>(a: seq<T>, x: seq<T>, y: seq<T>, z: seq<T>)
    ensures a + x + y + z == a + (x + y + z)
  {
  }

  lemma AjaxRegistrationsStep(owner: string, m: MethodInfo, ms: seq<Match>, j: nat)
    requires j < |ms| && forall k :: 0 <= k < |ms| ==> Conforms(AjaxPattern, ms[k])
    ensures AjaxRegistrationsOf(owner, m, ms[..j + 1])
         == AjaxRegistrationsOf(owner, m, ms[..j]) + AjaxPair(owner, m, ms[j])
  {
    assert ms[..j + 1][..j] == ms[..j];
  }

  /** The loop over the `@filter`/`@action`/`@shortcode` matches of one method. */
  method RegisterHooks(host: HostLog, owner: string, m: MethodInfo, hooks: seq<Match>)
    requires forall j :: 0 <= j < |hooks| ==> Conforms(HookPattern, hooks[j])
    modifies host
    ensures host.log == old(host.log) + HookRegistrationsOf(owner, m, hooks)
  {
    for j := 0 to |hooks|
      invariant host.log == old(host.log) + HookRegistrationsOf(owner, m, hooks)[..j]
    {
      host.Record(HookRegistration(owner, m, hooks[j]));
      assert HookRegistrationsOf(owner, m, hooks)[..j + 1]
          == HookRegistrationsOf(owner, m, hooks)[..j] + [HookRegistration(owner, m, hooks[j])];
      AppendAssoc(old(host.log), HookRegistrationsOf(owner, m, hooks)[..j], [HookRegistration(owner, m, hooks[j])]);
    }
    assert HookRegistrationsOf(owner, m, hooks)[..|hooks|] == HookRegistrationsOf(owner, m, hooks);
  }

  /** The loop over the `@command` matches of one method. */
  method RegisterCommands(host: HostLog, owner: string, m: MethodInfo, commands: seq<Match>)
    requires forall j :: 0 <= j < |commands| ==> Conforms(CommandPattern, commands[j])
    modifies host
    ensures host.log == old(host.log) + CommandRegistrationsOf(owner, m, commands)
  {
    for j := 0 to |commands|
      invariant host.log == old(host.log) + CommandRegistrationsOf(owner, m, commands)[..j]
    {
      host.Record(CommandRegistration(owner, m, commands[j]));
      assert CommandRegistrationsOf(owner, m, commands)[..j + 1]
          == CommandRegistrationsOf(owner, m, commands)[..j] + [CommandRegistration(owner, m, commands[j])];
      AppendAssoc(old(host.log), CommandRegistrationsOf(owner, m, commands)[..j], [CommandRegistration(owner, m, commands[j])]);
    }
    assert CommandRegistrationsOf(owner, m, commands)[..|commands|] == CommandRegistrationsOf(owner, m, commands);
  }

  /** The loop over the `@ajax` matches of one method. */
  method RegisterAjax(host: HostLog, owner: string, m: MethodInfo, ajax: seq<Match>)
    requires forall j :: 0 <= j < |ajax| ==> Conforms(AjaxPattern, ajax[j])
    modifies host
    ensures host.log == old(host.log) + AjaxRegistrationsOf(owner, m, ajax)
  {
    for j := 0 to |ajax|
      invariant host.log == old(host.log) + AjaxRegistrationsOf(owner, m, ajax[..j])
    {
      RegisterAjaxPrefixes(host, owner, m, ajax[j]);
      AjaxRegistrationsStep(owner, m, ajax, j);
      AppendAssoc(old(host.log), AjaxRegistrationsOf(owner, m, ajax[..j]), AjaxPair(owner, m, ajax[j]));
    }
    assert ajax[..|ajax|] == ajax;
  }

  /** The inner loop over the two prefixes for one `@ajax` match. */
  method RegisterAjaxPrefixes(host: HostLog, owner: string, m: MethodInfo, am: Match)
    requires Conforms(AjaxPattern, am)
    modifies host
    ensures host.log == old(host.log) + AjaxPair(owner, m, am)
  {
    ghost var pair := AjaxPair(owner, m, am);
    for k := 0 to |AjaxPrefixes|
      invariant host.log == old(host.log) + pair[..k]
    {
      assert pair[k] == AjaxRegistration(owner, m, am, AjaxPrefixes[k]);
      host.Record(AjaxRegistration(owner, m, am, AjaxPrefixes[k]));
      assert pair[..k + 1] == pair[..k] + [pair[k]];
      AppendAssoc(old(host.log), pair[..k], [pair[k]]);
    }
    assert pair[..2] == pair;
  }
}
