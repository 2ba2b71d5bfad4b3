/**
 * What `addDocHooks` registers for whole doc comments: an annotation may
 * sit anywhere in the comment, every match needs the `* @` marker, and a
 * comment with a single marker yields the one registration its line spells.
 */
module DocHookFacts {
  import opened Wrappers
  import opened DocScan
  import opened Annotations
  import opened Reflection
  import opened Host
  import opened ActionHooks
  import opened Strings

  // ---------------------------------------------------------------------
  // A hook annotation is read back wherever it sits in the comment.

  /** `(pre + t)` seen from `|pre|` on is `t`. */
  lemma ShiftSlice(pre: string, t: string, lo: nat, hi: nat)
    requires lo <= hi <= |t|
    ensures (pre + t)[|pre| + lo..|pre| + hi] == t[lo..hi]
  {
    var s := pre + t;
    assert forall k :: 0 <= k < hi - lo ==> s[|pre| + lo..|pre| + hi][k] == t[lo..hi][k];
  }

  /**
   * `HookAt` at offset `i` once the prefix, the kind and the name are known:
   * the white space runs from `w0` to `w`, the name from `w` to `n`.
   */
  lemma HookAtFrom(s: string, i: nat, kind: HookKind, n: nat, w0: nat, w: nat, name: string)
    requires LiteralAt(s, i, "* @") && i + 3 <= |s| && KindAt(s, i + 3) == Some(kind)
    requires w0 == i + 3 + |KindText(kind)| && w == w0 + 1 && w < n <= |s|
    requires RunEnd(Space, s, w0) == w && RunEnd(HookName, s, w) == n
    requires PriorityAt(s, n) == None && s[w..n] == name
    ensures HookAt(s, i) == Some(Hook(i, n, kind, name, None))
  { }

  /** The same with the priority digits spanning `d0` to `d`. */
  lemma HookAtFromWithPriority(s: string, i: nat, kind: HookKind, n: nat, w0: nat, w: nat, name: string,
                               d0: nat, d: nat, digits: string)
    requires LiteralAt(s, i, "* @") && i + 3 <= |s| && KindAt(s, i + 3) == Some(kind)
    requires w0 == i + 3 + |KindText(kind)| && w == w0 + 1 && w < n <= |s|
    requires RunEnd(Space, s, w0) == w && RunEnd(HookName, s, w) == n
    requires PriorityAt(s, n) == Some((d0, d)) && s[w..n] == name && s[d0..d] == digits
    ensures HookAt(s, i) == Some(Hook(i, d, kind, name, Some(digits)))
  { }

  /** `* @`, the kind, one space at `w0` and the name from `w` to `n`, at offset `i`. */
  predicate HeadLayoutAt(s: string, i: nat, kind: HookKind, name: string, w0: nat, w: nat, n: nat)
  {
    && w0 == i + 3 + |KindText(kind)| && w == w0 + 1 && n == w + |name| && n <= |s|
    && s[i..i + 3] == "* @" && s[i + 3..w0] == KindText(kind) && s[w0] == ' ' && s[w..n] == name
  }

  /** The optional `, <digits>` from `n`, and then white space or nothing at `e`. */
  predicate TailLayoutAt(s: string, n: nat, priority: Option<string>, e: nat)
  {
    && n <= e <= |s|
    && (match priority
        case None => e == n
        case Some(d) => e == n + 2 + |d| && s[n] == ',' && s[n + 1] == ' ' && s[n + 2..e] == d)
    && (e == |s| || IsSpace(s[e]))
  }

  /** The head layout gives `HookAt` its prefix, its kind, its white space and its name. */
  lemma {:induction false} HeadAtParses(s: string, i: nat, kind: HookKind, name: string, w0: nat, w: nat, n: nat)
    requires IsHookName(name) && HeadLayoutAt(s, i, kind, name, w0, w, n)
    requires n == |s| || !IsHookNameChar(s[n])
    ensures LiteralAt(s, i, "* @") && i + 3 <= |s| && KindAt(s, i + 3) == Some(kind)
    ensures RunEnd(Space, s, w0) == w && RunEnd(HookName, s, w) == n
  {
    KindTextAt(kind, s, i + 3);
    assert s[w] == name[0];
    RunEndIs(Space, s, w0, w);
    RunEndOver(HookName, s, w, name);
  }

  lemma LayoutAtParses(s: string, i: nat, kind: HookKind, name: string, priority: Option<string>,
                       w0: nat, w: nat, n: nat, e: nat)
    requires IsHookName(name) && (priority.Some? ==> IsDigits(priority.value))
    requires HeadLayoutAt(s, i, kind, name, w0, w, n) && TailLayoutAt(s, n, priority, e)
    ensures HookAt(s, i) == Some(Hook(i, e, kind, name, priority))
  {
    match priority {
      case None => PlainLayoutParses(s, i, kind, name, w0, w, n);
      case Some(d) => PriorityLayoutParses(s, i, kind, name, d, w0, w, n, e);
    }
  }

  /** The hook layout with no priority. */
  lemma {:induction false} PlainLayoutParses(s: string, i: nat, kind: HookKind, name: string, w0: nat, w: nat, n: nat)
    requires IsHookName(name)
    requires HeadLayoutAt(s, i, kind, name, w0, w, n) && TailLayoutAt(s, n, None, n)
    ensures HookAt(s, i) == Some(Hook(i, n, kind, name, None))
  {
    HeadAtParses(s, i, kind, name, w0, w, n);
    NoPriorityFollows(s, n);
    HookAtFrom(s, i, kind, n, w0, w, name);
  }

  /** The hook layout with the priority digits `d`. */
  lemma {:induction false} PriorityLayoutParses(s: string, i: nat, kind: HookKind, name: string, d: string,
                                                w0: nat, w: nat, n: nat, e: nat)
    requires IsHookName(name) && IsDigits(d)
    requires HeadLayoutAt(s, i, kind, name, w0, w, n) && TailLayoutAt(s, n, Some(d), e)
    ensures HookAt(s, i) == Some(Hook(i, e, kind, name, Some(d)))
  {
    var d0 := n + 2;
    assert s[n] == ',';
    HeadAtParses(s, i, kind, name, w0, w, n);
    PriorityFollows(s, n, d);
    HookAtFromWithPriority(s, i, kind, n, w0, w, name, d0, e, d);
  }

  /** The head of a written hook annotation after `pre`, at `|pre|`. */
  lemma AnnotationHeadAt(s: string, pre: string, kind: HookKind, name: string, priority: Option<string>, t: string,
                         e0: nat, p: nat, w0: nat, w: nat, n: nat)
    requires s == pre + t && p == |pre|
    requires w0 == p + 3 + |KindText(kind)| && w == w0 + 1 && n == w + |name|
    requires HookLayout(t, kind, name, priority, e0)
    ensures HeadLayoutAt(s, p, kind, name, w0, w, n)
  {
    var kt := KindText(kind);
    ShiftSlice(pre, t, 0, 3);
    ShiftSlice(pre, t, 3, 3 + |kt|);
    ShiftSlice(pre, t, 4 + |kt|, 4 + |kt| + |name|);
    assert s[w0] == t[3 + |kt|];
  }

  /** The tail of a written hook annotation after `pre`, from the end of the name. */
  lemma AnnotationTailAt(s: string, pre: string, kind: HookKind, name: string, priority: Option<string>, t: string,
                         n0: nat, n: nat, e0: nat, e: nat)
    requires s == pre + t && n0 == 4 + |KindText(kind)| + |name| && n == |pre| + n0 && e == |pre| + e0
    requires HookLayout(t, kind, name, priority, e0)
    ensures TailLayoutAt(s, n, priority, e)
  {
    if priority.Some? {
      ShiftSlice(pre, t, n0 + 2, e0);
      assert s[n] == t[n0] && s[n + 1] == t[n0 + 1];
    }
    assert e == |s| || s[e] == t[e0];
  }

  /**
   * A hook annotation anywhere in a comment, followed by white space or
   * nothing, is read back: it starts at `p`, after `pre`, and ends at `e`.
   */
  lemma HookAnnotationAt(s: string, pre: string, kind: HookKind, name: string, priority: Option<string>, rest: string,
                         p: nat, e: nat)
    requires IsHookName(name)
    requires priority.Some? ==> IsDigits(priority.value)
    requires rest == [] || IsSpace(rest[0])
    requires s == pre + HookAnnotation(kind, name, priority) + rest
    requires p == |pre| && e == p + |HookAnnotation(kind, name, priority)|
    ensures HookAt(s, p) == Some(Hook(p, e, kind, name, priority))
  {
    var w0 := p + 3 + |KindText(kind)|;
    var w := w0 + 1;
    var n := w + |name|;
    var a := HookAnnotation(kind, name, priority);
    var t := a + rest;
    assert s == pre + t;
    HookAnnotationLayout(kind, name, priority, rest);
    AnnotationHeadAt(s, pre, kind, name, priority, t, |a|, p, w0, w, n);
    AnnotationTailAt(s, pre, kind, name, priority, t, 4 + |KindText(kind)| + |name|, n, |a|, e);
    LayoutAtParses(s, p, kind, name, priority, w0, w, n, e);
  }

  // ---------------------------------------------------------------------
  // Every pattern starts with the marker `* @`.

  /** A literal that starts with `* @` is only found where `* @` is. */
  lemma MarkerPrefix(s: string, k: nat, lit: string)
    requires |lit| >= 3 && lit[..3] == "* @" && LiteralAt(s, k, lit)
    ensures LiteralAt(s, k, "* @")
  {
    assert s[k..k + 3] == s[k..k + |lit|][..3];
  }

  /** No `* @` at an offset: no pattern matches there. */
  lemma NoMarkerNoMatch(p: Pattern, s: string, k: nat)
    requires k <= |s| && !LiteralAt(s, k, "* @")
    ensures MatchAt(p, s, k) == None
  {
    if LiteralAt(s, k, "* @command") {
      MarkerPrefix(s, k, "* @command");
    }
    if LiteralAt(s, k, "* @ajax") {
      MarkerPrefix(s, k, "* @ajax");
    }
    if LiteralAt(s, k, "* @api-") {
      MarkerPrefix(s, k, "* @api-");
    }
  }

  /** A table with one match, at `i`, is scanned to that match alone. */
  lemma OneMatchScan(t: seq<Option<Match>>, i: nat, m: Match)
    requires Table(t) && i < |t| && t[i] == Some(m)
    requires forall k :: 0 <= k < |t| && k != i ==> t[k] == None
    ensures IsScan(t, 0, [m])
  {
    assert m.start == i < m.end;
    assert [m][0] == m;
    assert Covered([m], i);
  }

  /** A comment with at most one marker, at `i`: the scan holds at most the match there. */
  lemma SingleMarker(p: Pattern, s: string, i: nat)
    requires i <= |s|
    requires forall k :: 0 <= k <= |s| && k != i ==> !LiteralAt(s, k, "* @")
    ensures MatchAll(p, s) == match MatchAt(p, s, i) case None => [] case Some(m) => [m]
  {
    forall k | 0 <= k <= |s| && k != i
      ensures MatchAt(p, s, k) == None
    {
      NoMarkerNoMatch(p, s, k);
    }
    match MatchAt(p, s, i) {
      case None =>
        MatchAllEmpty(p, s);
      case Some(m) =>
        SingleMatch(p, s, i, m);
    }
  }

  /** The same when the match at `i` is known: the scan is that match alone. */
  lemma SingleMatch(p: Pattern, s: string, i: nat, m: Match)
    requires i <= |s| && MatchAt(p, s, i) == Some(m)
    requires forall k :: 0 <= k <= |s| && k != i ==> !LiteralAt(s, k, "* @")
    ensures MatchAll(p, s) == [m]
  {
    forall k | 0 <= k <= |s| && k != i
      ensures MatchAt(p, s, k) == None
    {
      NoMarkerNoMatch(p, s, k);
    }
    var t := MatchTable(p, s);
    OneMatchScan(t, i, m);
    MatchAllIsScan(p, s, [m]);
  }

  /** A comment without any marker registers nothing. */
  lemma NoMarkerNoRegistrations(owner: string, m: MethodInfo)
    requires forall k :: 0 <= k <= |m.doc| ==> !LiteralAt(m.doc, k, "* @")
    ensures MethodRegistrations(owner, m) == []
  {
    forall p: Pattern
      ensures MatchAll(p, m.doc) == []
    {
      forall k | 0 <= k <= |m.doc|
        ensures MatchAt(p, m.doc, k).None?
      {
        NoMarkerNoMatch(p, m.doc, k);
      }
      MatchAllEmpty(p, m.doc);
    }
  }

  /** The single hook annotation is the whole hook scan of the comment. */
  lemma SingleHookScan(s: string, pre: string, kind: HookKind, name: string, rest: string, p: nat, e: nat)
    requires IsHookName(name) && (rest == [] || IsSpace(rest[0]))
    requires s == pre + HookAnnotation(kind, name, None) + rest
    requires p == |pre| && e == p + |HookAnnotation(kind, name, None)|
    requires forall k :: 0 <= k <= |s| && k != p ==> !LiteralAt(s, k, "* @")
    ensures MatchAll(HookPattern, s) == [Hook(p, e, kind, name, None)]
  {
    HookAnnotationAt(s, pre, kind, name, None, rest, p, e);
    SingleMatch(HookPattern, s, p, Hook(p, e, kind, name, None));
  }

  /** A hook annotation line is neither a command nor an ajax annotation. */
  lemma HookLineOnly(s: string, pre: string, kind: HookKind, name: string, rest: string)
    requires s == pre + HookAnnotation(kind, name, None) + rest
    requires forall k :: 0 <= k <= |s| && k != |pre| ==> !LiteralAt(s, k, "* @")
    ensures MatchAll(CommandPattern, s) == [] && MatchAll(AjaxPattern, s) == []
  {
    var i := |pre|;
    var kt := KindText(kind);
    assert s[i + 3] == kt[0] && s[i + 4] == kt[1];
    assert !LiteralAt(s, i, "* @command") by {
      assert i + 10 > |s| || s[i..i + 10][3] == s[i + 3] != 'c';
    }
    assert !LiteralAt(s, i, "* @ajax") by {
      assert i + 7 > |s| || s[i..i + 7][3] != 'a' || s[i..i + 7][4] != 'j';
    }
    SingleMarker(CommandPattern, s, i);
    SingleMarker(AjaxPattern, s, i);
  }

  /**
   * A method whose comment holds a single annotation line `* @<kind> <name>`
   * and no other marker registers exactly that hook: priority 11, the
   * method's parameter count and callback for a filter or an action, and
   * 10 and PHP_INT_MAX for a shortcode.
   */
  lemma {:induction false} SingleHookAnnotation(owner: string, m: MethodInfo, pre: string, kind: HookKind, name: string, rest: string)
    requires IsHookName(name) && (rest == [] || IsSpace(rest[0]))
    requires m.doc == pre + HookAnnotation(kind, name, None) + rest
    requires forall k :: 0 <= k <= |m.doc| && k != |pre| ==> !LiteralAt(m.doc, k, "* @")
    ensures MethodRegistrations(owner, m) ==
      [if kind == Shortcode then HookAdded(Shortcode, name, Callback(owner, m.name), 10, PhpIntMax)
       else HookAdded(kind, name, Callback(owner, m.name), 11, m.paramCount)]
  {
    var p := |pre|;
    var e := p + |HookAnnotation(kind, name, None)|;
    SingleHookScan(m.doc, pre, kind, name, rest, p, e);
    HookLineOnly(m.doc, pre, kind, name, rest);
    OnlyHookRegistration(owner, m, Hook(p, e, kind, name, None));
  }

  /** A comment whose only match is one hook match registers that hook alone. */
  lemma OnlyHookRegistration(owner: string, m: MethodInfo, hm: Match)
    requires Conforms(HookPattern, hm)
    requires MatchAll(HookPattern, m.doc) == [hm]
    requires MatchAll(CommandPattern, m.doc) == [] && MatchAll(AjaxPattern, m.doc) == []
    ensures MethodRegistrations(owner, m) == [HookRegistration(owner, m, hm)]
  {
    assert HookRegistrationsOf(owner, m, [hm]) == [HookRegistration(owner, m, hm)];
  }

  lemma ApiHookNames()
    ensures IsHookName("rest_api_init") && IsHookName("init")
  {
    var r := "rest_api_init";
    assert forall k :: 0 <= k < |r| ==> IsHookNameChar(r[k]) by {
      forall k | 0 <= k < |r|
        ensures IsHookNameChar(r[k])
      {
        assert r[k] in "rest_api_init";
      }
    }
  }

  /**
   * `registerEndpoints` and `addApiHooks`, documented `@action rest_api_init`
   * and `@action init` and taking no parameters, are registered as actions
   * on those hooks at priority 11 with no arguments.
   */
  lemma {:induction false} ApiHookMethodsRegistered(owner: string, pre: string, rest: string, m: MethodInfo, hook: string)
    requires (m.name == "registerEndpoints" && hook == "rest_api_init") || (m.name == "addApiHooks" && hook == "init")
    requires m.paramCount == 0 && (rest == [] || IsSpace(rest[0]))
    requires m.doc == pre + "* @action " + hook + rest
    requires forall k :: 0 <= k <= |m.doc| && k != |pre| ==> !LiteralAt(m.doc, k, "* @")
    ensures MethodRegistrations(owner, m) == [HookAdded(Action, hook, Callback(owner, m.name), 11, 0)]
  {
    ActionAnnotationText(hook);
    ApiHookNames();
    SingleHookAnnotation(owner, m, pre, Action, hook, rest);
  }

  lemma ActionAnnotationText(hook: string)
    ensures HookAnnotation(Action, hook, None) == "* @action " + hook
  {
  }

  // ---------------------------------------------------------------------
  // Every hook annotation in a comment is registered, in document order.

  /** A hook match holds no `*` after its first character. */
  lemma HookMatchHoldsNoMarker(s: string, i: nat)
    requires i <= |s| && HookAt(s, i).Some?
    ensures forall k :: i < k < HookAt(s, i).value.end ==> s[k] != '*'
  {
    var kind := KindAt(s, i + 3).value;
    var w0 := i + 3 + |KindText(kind)|;
    var w := RunEnd(Space, s, w0);
    var n := RunEnd(HookName, s, w);
    HeadHoldsNoMarker(s, i, kind, w0, w, n);
    HookEnd(s, i, kind, w0, w, n, HookAt(s, i).value.end);
  }

  /** A hook match ends after its name, or after the priority digits that follow it. */
  lemma HookEnd(s: string, i: nat, kind: HookKind, w0: nat, w: nat, n: nat, e: nat)
    requires i <= |s| && HookAt(s, i).Some? && KindAt(s, i + 3) == Some(kind)
    requires w0 == i + 3 + |KindText(kind)| && w == RunEnd(Space, s, w0) && n == RunEnd(HookName, s, w)
    requires e == HookAt(s, i).value.end
    ensures forall k :: n <= k < e ==> s[k] != '*'
  {
    match PriorityAt(s, n) {
      case None =>
      case Some(span) =>
        PriorityHoldsNoMarker(s, n, span.0, span.1);
    }
  }

  /** `* @`, the kind, the white space and the name hold no `*` after the first character. */
  lemma HeadHoldsNoMarker(s: string, i: nat, kind: HookKind, w0: nat, w: nat, n: nat)
    requires LiteralAt(s, i, "* @") && LiteralAt(s, i + 3, KindText(kind))
    requires w0 == i + 3 + |KindText(kind)| && w0 <= w <= n <= |s|
    requires AllSpace(s, w0, w) && forall k :: w <= k < n ==> IsHookNameChar(s[k])
    ensures forall k :: i < k < n ==> s[k] != '*'
  {
    var kt := KindText(kind);
    assert '*' !in kt;
    forall k | i < k < n
      ensures s[k] != '*'
    {
      if k < i + 3 {
        assert s[k] == s[i..i + 3][k - i];
      } else if k < w0 {
        assert s[k] == s[i + 3..i + 3 + |kt|][k - i - 3];
      } else if k < w {
        assert IsSpace(s[k]);
      }
    }
  }

  /** `,`, white space and digits hold no `*`. */
  lemma PriorityHoldsNoMarker(s: string, n: nat, d0: nat, d: nat)
    requires n < d0 <= d <= |s| && s[n] == ','
    requires AllSpace(s, n + 1, d0) && forall k :: d0 <= k < d ==> IsDigit(s[k])
    ensures forall k :: n <= k < d ==> s[k] != '*'
  {
    forall k | n <= k < d
      ensures s[k] != '*'
    {
      if n < k < d0 {
        assert IsSpace(s[k]);
      }
    }
  }

  /** Every offset where the hook pattern matches starts one of the matches of the scan. */
  lemma HookOffsetInScan(s: string, k: nat)
    requires k <= |s| && HookAt(s, k).Some?
    ensures HookAt(s, k).value in MatchAll(HookPattern, s)
  {
    var ms := MatchAll(HookPattern, s);
    var t := MatchTable(HookPattern, s);
    MatchAllIsScan(HookPattern, s, ms);
    assert t[k] == HookAt(s, k);
    assert Covered(ms, k);
    assert forall j :: 0 <= j < |ms| ==> HookAt(s, ms[j].start) == MatchAt(HookPattern, s, ms[j].start);
    StartOfCover(s, ms, k);
  }

  /** The scan match that covers a hook offset starts there, since no hook match holds a later `*`. */
  lemma StartOfCover(s: string, ms: seq<Match>, k: nat)
    requires k <= |s| && HookAt(s, k).Some? && Covered(ms, k)
    requires forall j :: 0 <= j < |ms| ==> ms[j].start <= |s| && HookAt(s, ms[j].start) == Some(ms[j])
    ensures HookAt(s, k).value in ms
  {
    var j :| 0 <= j < |ms| && ms[j].start <= k < ms[j].end;
    HookAtMarker(s, k);
    CoverStartsAt(s, ms[j], k);
  }

  lemma CoverStartsAt(s: string, m: Match, k: nat)
    requires k < |s| && s[k] == '*'
    requires m.start <= |s| && HookAt(s, m.start) == Some(m) && m.start <= k < m.end
    ensures m.start == k
  {
    HookMatchHoldsNoMarker(s, m.start);
  }

  lemma HookAtMarker(s: string, k: nat)
    requires k <= |s| && HookAt(s, k).Some?
    ensures k < |s| && s[k] == '*'
  {
    assert s[k] == s[k..k + 3][0];
  }

  /** `x` occurs in `xs` before `y`. */
  predicate InOrder<T(==)>(xs: seq<T>, x: T, y: T)
  {
    exists j1, j2 :: 0 <= j1 < j2 < |xs| && xs[j1] == x && xs[j2] == y
  }

  /** Two offsets where the hook pattern matches give two matches of the scan, in document order. */
  lemma HookOffsetsInOrder(s: string, k1: nat, k2: nat)
    requires k1 < k2 <= |s| && HookAt(s, k1).Some? && HookAt(s, k2).Some?
    ensures InOrder(MatchAll(HookPattern, s), HookAt(s, k1).value, HookAt(s, k2).value)
  {
    var ms := MatchAll(HookPattern, s);
    MatchAllIsScan(HookPattern, s, ms);
    HookOffsetInScan(s, k1);
    HookOffsetInScan(s, k2);
    ScanInOrder(ms, HookAt(s, k1).value, HookAt(s, k2).value);
  }

  /** In an ordered scan, a match that starts earlier comes earlier. */
  lemma ScanInOrder(ms: seq<Match>, x: Match, y: Match)
    requires Ordered(ms) && x in ms && y in ms && x.start < y.start < y.end
    ensures InOrder(ms, x, y)
  {
    var j1 :| 0 <= j1 < |ms| && ms[j1] == x;
    var j2 :| 0 <= j2 < |ms| && ms[j2] == y;
    assert j1 < j2;
  }

  /** Every hook annotation of a method's comment is registered. */
  lemma EveryHookAnnotationRegisters(owner: string, m: MethodInfo, k: nat)
    requires k <= |m.doc| && HookAt(m.doc, k).Some?
    ensures HookRegistration(owner, m, HookAt(m.doc, k).value) in MethodRegistrations(owner, m)
  {
    var h := MatchAll(HookPattern, m.doc);
    HookOffsetInScan(m.doc, k);
    var j :| 0 <= j < |h| && h[j] == HookAt(m.doc, k).value;
    MethodRegistrationsOrder(owner, m, h, MatchAll(CommandPattern, m.doc), MatchAll(AjaxPattern, m.doc));
    assert MethodRegistrations(owner, m)[j] == HookRegistration(owner, m, h[j]);
  }

  /** Two hook annotations of a method's comment are registered in the order they are written. */
  lemma HookAnnotationsRegisterInOrder(owner: string, m: MethodInfo, k1: nat, k2: nat)
    requires k1 < k2 <= |m.doc| && HookAt(m.doc, k1).Some? && HookAt(m.doc, k2).Some?
    ensures InOrder(MethodRegistrations(owner, m),
                    HookRegistration(owner, m, HookAt(m.doc, k1).value),
                    HookRegistration(owner, m, HookAt(m.doc, k2).value))
  {
    var h := MatchAll(HookPattern, m.doc);
    HookOffsetsInOrder(m.doc, k1, k2);
    var j1, j2 :| 0 <= j1 < j2 < |h| && h[j1] == HookAt(m.doc, k1).value && h[j2] == HookAt(m.doc, k2).value;
    MethodRegistrationsOrder(owner, m, h, MatchAll(CommandPattern, m.doc), MatchAll(AjaxPattern, m.doc));
    assert MethodRegistrations(owner, m)[j1] == HookRegistration(owner, m, h[j1]);
    assert MethodRegistrations(owner, m)[j2] == HookRegistration(owner, m, h[j2]);
  }

  /**
   * A comment with two hook annotation lines, separated by white space,
   * registers both hooks, the first one written first, whatever else the
   * comment holds. The first is found between `p1` and `e1`, the second
   * between `p2` and `e2`.
   */
  lemma TwoHookAnnotations(owner: string, m: MethodInfo, pre: string,
                           kind1: HookKind, name1: string, priority1: Option<string>, ws: string,
                           kind2: HookKind, name2: string, priority2: Option<string>, post: string,
                           p1: nat, e1: nat, p2: nat, e2: nat)
    requires IsHookName(name1) && (priority1.Some? ==> IsDigits(priority1.value))
    requires IsHookName(name2) && (priority2.Some? ==> IsDigits(priority2.value))
    requires ws != [] && IsSpace(ws[0]) && (post == [] || IsSpace(post[0]))
    requires m.doc == pre + HookAnnotation(kind1, name1, priority1) + ws + HookAnnotation(kind2, name2, priority2) + post
    requires p1 == |pre| && e1 == p1 + |HookAnnotation(kind1, name1, priority1)|
    requires p2 == e1 + |ws| && e2 == p2 + |HookAnnotation(kind2, name2, priority2)|
    ensures InOrder(MethodRegistrations(owner, m),
                    HookRegistration(owner, m, Hook(p1, e1, kind1, name1, priority1)),
                    HookRegistration(owner, m, Hook(p2, e2, kind2, name2, priority2)))
  {
    TwoHookMatches(m.doc, pre, kind1, name1, priority1, ws, kind2, name2, priority2, post, p1, e1, p2, e2);
    HookAnnotationsRegisterInOrder(owner, m, p1, p2);
  }

  /** Both hook annotation lines are read back where they are written. */
  lemma TwoHookMatches(s: string, pre: string,
                       kind1: HookKind, name1: string, priority1: Option<string>, ws: string,
                       kind2: HookKind, name2: string, priority2: Option<string>, post: string,
                       p1: nat, e1: nat, p2: nat, e2: nat)
    requires IsHookName(name1) && (priority1.Some? ==> IsDigits(priority1.value))
    requires IsHookName(name2) && (priority2.Some? ==> IsDigits(priority2.value))
    requires ws != [] && IsSpace(ws[0]) && (post == [] || IsSpace(post[0]))
    requires s == pre + HookAnnotation(kind1, name1, priority1) + ws + HookAnnotation(kind2, name2, priority2) + post
    requires p1 == |pre| && e1 == p1 + |HookAnnotation(kind1, name1, priority1)|
    requires p2 == e1 + |ws| && e2 == p2 + |HookAnnotation(kind2, name2, priority2)|
    ensures p1 < p2 <= |s|
    ensures HookAt(s, p1) == Some(Hook(p1, e1, kind1, name1, priority1))
    ensures HookAt(s, p2) == Some(Hook(p2, e2, kind2, name2, priority2))
  {
    var a := HookAnnotation(kind1, name1, priority1);
    var b := HookAnnotation(kind2, name2, priority2);
    FirstOfTwo(s, pre, a, ws, b, post);
    HookAnnotationAt(s, pre, kind1, name1, priority1, ws + b + post, p1, e1);
    SecondOfTwo(s, pre, a, ws, b, post);
    HookAnnotationAt(s, pre + a + ws, kind2, name2, priority2, post, p2, e2);
  }

  lemma FirstOfTwo(s: string, pre: string, a: string, ws: string, b: string, post: string)
    requires s == pre + a + ws + b + post
    ensures s == pre + a + (ws + b + post)
  {
  }

  lemma SecondOfTwo(s: string, pre: string, a: string, ws: string, b: string, post: string)
    requires s == pre + a + ws + b + post
    ensures s == (pre + a + ws) + b + post && |pre + a + ws| == |pre| + |a| + |ws|
  {
  }

  // ---------------------------------------------------------------------
  // `@ajax` with no name.

  /**
   * `* @ajax ` with no name is read as an ajax match without a handle; the
   * code as written then fails on the undeclared `StringUtil`, and the
   * intended reading names the hooks after the method in snake case.
   */
  lemma AjaxWithoutName(m: MethodInfo)
    ensures var found := AjaxAt(AjaxAnnotation(None), 0);
      && found == Some(Ajax(0, 8, None))
      && AjaxNameAsWritten(m, found.value).Failure?
      && AjaxName(m, found.value) == ToSnakeCase(m.name)
  {
    AjaxRoundTrip(None, []);
    assert AjaxAnnotation(None) + [] == AjaxAnnotation(None);
  }
}
