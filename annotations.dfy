/**
 * Annotation lines as a developer writes them, and what the four
 * patterns of `DocScan` read back from them.
 */
module Annotations {
  import opened Wrappers
  import opened DocScan

  /** `* @<kind> <name>` or `* @<kind> <name>, <digits>`. */
  function HookAnnotation(kind: HookKind, name: string, priority: Option<string>): string
  {
    "* @" + KindText(kind) + " " + name + (if priority.Some? then ", " + priority.value else "")
  }

  lemma KindTextAt(kind: HookKind, s: string, i: nat)
    requires LiteralAt(s, i, KindText(kind))
    ensures KindAt(s, i) == Some(kind)
  {
    assert s[i] == KindText(kind)[0];
  }

  /** `(x + y + z)[|x|..|x| + |y|]` is `y`. */
  lemma MiddleSlice(x: string, y: string, z: string)
    ensures (x + y + z)[|x|..|x| + |y|] == y
  {
    var u := x + y + z;
    assert forall k :: 0 <= k < |y| ==> u[|x| + k] == y[k];
  }

  /** A run of class `cc` that spells `t` and is not followed by another character of the class. */
  lemma RunEndOver(cc: CharClass, s: string, i: nat, t: string)
    requires i + |t| <= |s| && s[i..i + |t|] == t
    requires forall k :: 0 <= k < |t| ==> InClass(cc, t[k])
    requires i + |t| == |s| || !InClass(cc, s[i + |t|])
    ensures RunEnd(cc, s, i) == i + |t|
  {
    forall k | i <= k < i + |t|
      ensures InClass(cc, s[k])
    {
      assert s[k] == t[k - i];
    }
    RunEndIs(cc, s, i, i + |t|);
  }

  /**
   * `s` spells the hook annotation for `kind`, `name` and `priority`,
   * which ends at `e` and is followed by white space or nothing.
   */
  predicate HookLayout(s: string, kind: HookKind, name: string, priority: Option<string>, e: nat)
  {
    var w := 4 + |KindText(kind)|;
    var n := w + |name|;
    && n <= e <= |s|
    && s[..3] == "* @" && s[3..w - 1] == KindText(kind) && s[w - 1] == ' '
    && s[w..n] == name
    && (match priority
        case None => e == n
        case Some(d) => e == n + 2 + |d| && s[n] == ',' && s[n + 1] == ' ' && s[n + 2..e] == d)
    && (e == |s| || IsSpace(s[e]))
  }

  /** The `* @<kind> ` head in front of whatever follows it. */
  lemma HeadLayout(kind: HookKind, more: string)
    ensures var s := "* @" + KindText(kind) + " " + more;
      var w := 4 + |KindText(kind)|;
      && |s| == w + |more| && s[..3] == "* @" && s[3..w - 1] == KindText(kind) && s[w - 1] == ' '
      && s[w..] == more
  {
    var kt := KindText(kind);
    var s := "* @" + kt + " " + more;
    assert s == "* @" + (kt + " " + more);
    assert s == "* @" + kt + (" " + more);
    MiddleSlice("* @", kt, " " + more);
    assert s == "* @" + kt + " " + more;
  }

  /** A written hook annotation has the layout it was written with. */
  lemma HookAnnotationLayout(kind: HookKind, name: string, priority: Option<string>, rest: string)
    requires rest == [] || IsSpace(rest[0])
    ensures var a := HookAnnotation(kind, name, priority);
      HookLayout(a + rest, kind, name, priority, |a|)
  {
    var kt := KindText(kind);
    var tail := if priority.Some? then ", " + priority.value else "";
    var more := name + tail + rest;
    var s := "* @" + kt + " " + more;
    var a := HookAnnotation(kind, name, priority);
    assert a + rest == s;
    HeadLayout(kind, more);
    var w := 4 + |kt|;
    var n := w + |name|;
    MoreLayout(name, priority, rest);
    TailSlices(s, w, more, name, priority, rest);
  }

  /** What follows the head: the name, the optional `, <digits>` and the rest. */
  lemma MoreLayout(name: string, priority: Option<string>, rest: string)
    requires rest == [] || IsSpace(rest[0])
    ensures var tail := if priority.Some? then ", " + priority.value else "";
      var m := name + tail + rest;
      var e := |name| + |tail|;
      && m[..|name|] == name
      && (match priority
          case None => true
          case Some(d) => m[|name|] == ',' && m[|name| + 1] == ' ' && m[|name| + 2..e] == d)
      && (e == |m| || IsSpace(m[e]))
  {
    var tail := if priority.Some? then ", " + priority.value else "";
    var m := name + tail + rest;
    assert m == name + (tail + rest);
    if priority.Some? {
      var d := priority.value;
      assert m == name + ", " + d + rest;
      MiddleSlice(name + ", ", d, rest);
    }
    assert |name| + |tail| == |m| || m[|name| + |tail|] == rest[0];
  }

  /** Facts about `more` carry over to `s` once `s[w..] == more`. */
  lemma TailSlices(s: string, w: nat, more: string, name: string, priority: Option<string>, rest: string)
    requires w <= |s| && s[w..] == more
    requires var tail := if priority.Some? then ", " + priority.value else "";
      more == name + tail + rest
    requires var tail := if priority.Some? then ", " + priority.value else "";
      var e := |name| + |tail|;
      && more[..|name|] == name
      && (match priority
          case None => true
          case Some(d) => more[|name|] == ',' && more[|name| + 1] == ' ' && more[|name| + 2..e] == d)
      && (e == |more| || IsSpace(more[e]))
    ensures var tail := if priority.Some? then ", " + priority.value else "";
      var n := w + |name|;
      var e := n + |tail|;
      && n <= e <= |s| && s[w..n] == name
      && (match priority
          case None => true
          case Some(d) => s[n] == ',' && s[n + 1] == ' ' && s[n + 2..e] == d)
      && (e == |s| || IsSpace(s[e]))
  {
    var tail := if priority.Some? then ", " + priority.value else "";
    var n := w + |name|;
    assert forall k :: w <= k < |s| ==> s[k] == more[k - w];
    assert s[w..n] == more[..|name|];
    if priority.Some? {
      var d := priority.value;
      assert s[n + 2..n + |tail|] == more[|name| + 2..|name| + |tail|];
    }
  }

  /** `, <digits>` after the name is the priority. */
  lemma PriorityFollows(s: string, n: nat, d: string)
    requires n + 2 + |d| <= |s| && s[n] == ',' && s[n + 1] == ' ' && s[n + 2..n + 2 + |d|] == d
    requires IsDigits(d) && (n + 2 + |d| == |s| || IsSpace(s[n + 2 + |d|]))
    ensures PriorityAt(s, n) == Some((n + 2, n + 2 + |d|))
  {
    RunEndIs(Space, s, n + 1, n + 2);
    RunEndOver(Digit, s, n + 2, d);
  }

  /** Whatever follows a name that ends in white space or nothing carries no priority. */
  lemma NoPriorityFollows(s: string, n: nat)
    requires n <= |s| && (n == |s| || IsSpace(s[n]))
    ensures PriorityAt(s, n) == None
  { }

  /**
   * What `HookAt` finds at offset 0 before the optional priority: the
   * `* @` prefix, the kind, one space and a name that ends at `n`.
   */
  predicate HookFrontAt(s: string, kind: HookKind, n: nat)
  {
    && LiteralAt(s, 0, "* @") && KindAt(s, 3) == Some(kind)
    && 4 + |KindText(kind)| < n <= |s|
    && RunEnd(Space, s, 3 + |KindText(kind)|) == 4 + |KindText(kind)|
    && RunEnd(HookName, s, 4 + |KindText(kind)|) == n
  }

  lemma LayoutFront(s: string, kind: HookKind, name: string, priority: Option<string>, e: nat)
    requires IsHookName(name) && HookLayout(s, kind, name, priority, e)
    ensures HookFrontAt(s, kind, 4 + |KindText(kind)| + |name|)
  {
    var kt := KindText(kind);
    var w := 4 + |kt|;
    var n := w + |name|;
    assert s[3..3 + |kt|] == kt;
    KindTextAt(kind, s, 3);
    assert s[w] == name[0];
    RunEndIs(Space, s, w - 1, w);
    assert n == |s| || !IsHookNameChar(s[n]);
    RunEndOver(HookName, s, w, name);
  }

  lemma LayoutPriority(s: string, kind: HookKind, name: string, priority: Option<string>, e: nat)
    requires (priority.Some? ==> IsDigits(priority.value)) && HookLayout(s, kind, name, priority, e)
    ensures var n := 4 + |KindText(kind)| + |name|;
      match priority
      case None => PriorityAt(s, n) == None
      case Some(d) => PriorityAt(s, n) == Some((n + 2, e))
  {
    var n := 4 + |KindText(kind)| + |name|;
    match priority {
      case None => NoPriorityFollows(s, n);
      case Some(d) => PriorityFollows(s, n, d);
    }
  }

  /** `HookAt` at offset 0 once the prefix, the kind and the name are known. */
  lemma HookAtName(s: string, kind: HookKind, n: nat)
    requires HookFrontAt(s, kind, n)
    ensures var w := 4 + |KindText(kind)|;
      HookAt(s, 0) == match PriorityAt(s, n)
        case None => Some(Hook(0, n, kind, s[w..n], None))
        case Some(span) => Some(Hook(0, span.1, kind, s[w..n], Some(s[span.0..span.1])))
  { }

  /** `HookAt` reads the kind, the name and the priority back from a hook layout. */
  lemma HookLayoutParses(s: string, kind: HookKind, name: string, priority: Option<string>, e: nat)
    requires IsHookName(name) && (priority.Some? ==> IsDigits(priority.value))
    requires HookLayout(s, kind, name, priority, e)
    ensures HookAt(s, 0) == Some(Hook(0, e, kind, name, priority))
  {
    var n := 4 + |KindText(kind)| + |name|;
    LayoutFront(s, kind, name, priority, e);
    LayoutPriority(s, kind, name, priority, e);
    HookAtName(s, kind, n);
  }

  /** Parsing a written hook annotation gives back its kind, name and priority. */
  lemma HookRoundTrip(kind: HookKind, name: string, priority: Option<string>, rest: string)
    requires IsHookName(name)
    requires priority.Some? ==> IsDigits(priority.value)
    requires rest == [] || IsSpace(rest[0])
    ensures var a := HookAnnotation(kind, name, priority);
      HookAt(a + rest, 0) == Some(Hook(0, |a|, kind, name, priority))
  {
    var a := HookAnnotation(kind, name, priority);
    HookAnnotationLayout(kind, name, priority, rest);
    HookLayoutParses(a + rest, kind, name, priority, |a|);
  }

  /** `* @command <name>`, or `* @command ` with no name. */
  function CommandAnnotation(command: Option<string>): string
  {
    "* @command " + (if command.Some? then command.value else "")
  }

  /** Parsing a written command annotation gives back its name, spaces and colons included. */
  lemma CommandRoundTrip(command: Option<string>, rest: string)
    requires command.Some? ==> IsCommandName(command.value)
    requires rest == [] || (command.Some? && rest[0] == '\n')
          || (!IsSpace(rest[0]) && !IsCommandNameChar(rest[0]))
    ensures var a := CommandAnnotation(command);
      CommandAt(a + rest, 0) == Some(Command(0, |a|, command))
  {
    var a := CommandAnnotation(command);
    var s := a + rest;
    assert s[..10] == "* @command";
    assert s[10] == ' ';
    if command.Some? {
      var c := command.value;
      assert forall k :: 11 <= k < |a| ==> s[k] == c[k - 11];
      RunEndIs(Space, s, 10, 11);
      RunEndIs(CommandName, s, 11, |a|);
      assert s[11..|a|] == c;
    } else {
      RunEndIs(Space, s, 10, 11);
      RunEndIs(CommandName, s, 11, 11);
    }
  }

  /** `* @ajax <name>`, or `* @ajax ` with no name. */
  function AjaxAnnotation(handle: Option<string>): string
  {
    "* @ajax " + (if handle.Some? then handle.value else "")
  }

  /** Parsing a written ajax annotation gives back its name, or no name. */
  lemma AjaxRoundTrip(handle: Option<string>, rest: string)
    requires handle.Some? ==> IsHookName(handle.value)
    requires rest == [] || !IsHookNameChar(rest[0])
    ensures var a := AjaxAnnotation(handle);
      AjaxAt(a + rest, 0) == Some(Ajax(0, |a|, handle))
  {
    var a := AjaxAnnotation(handle);
    var s := a + rest;
    assert s[..7] == "* @ajax";
    assert s[7] == ' ';
    if handle.Some? {
      var h := handle.value;
      assert forall k :: 8 <= k < |a| ==> s[k] == h[k - 8];
      RunEndIs(HookName, s, 8, |a|);
      assert s[8..|a|] == h;
    } else {
      RunEndIs(HookName, s, 8, 8);
    }
  }

  /** `* @ajax` followed by two white-space characters has no name: `\s+?` takes only one. */
  lemma AjaxTwoSpacesLoseName(s: string, i: nat)
    requires LiteralAt(s, i, "* @ajax") && i + 8 < |s| && IsSpace(s[i + 7]) && IsSpace(s[i + 8])
    ensures AjaxAt(s, i) == Some(Ajax(i, i + 8, None))
  {
    RunEndIs(HookName, s, i + 8, i + 8);
  }

  /** A hook name starting with an upper-case letter is no match at all. */
  lemma HookUpperInitialNoMatch(s: string, i: nat, kind: HookKind, w: nat)
    requires LiteralAt(s, i, "* @" + KindText(kind))
    requires i + 3 + |KindText(kind)| < w < |s| && 'A' <= s[w] <= 'Z'
    requires forall k :: i + 3 + |KindText(kind)| <= k < w ==> IsSpace(s[k])
    ensures HookAt(s, i) == None
  {
    var kt := KindText(kind);
    var lit := "* @" + kt;
    assert s[i..i + 3] == s[i..i + |lit|][..3] == lit[..3] == "* @";
    assert s[i + 3..i + 3 + |kt|] == s[i..i + |lit|][3..] == kt;
    KindTextAt(kind, s, i + 3);
    RunEndIs(Space, s, i + 3 + |kt|, w);
    RunEndIs(HookName, s, w, w);
  }

  /** A key without white space and a one-line value. */
  function ApiAnnotation(key: string, value: string): string
  {
    "* @api-" + key + " " + value
  }

  /** Parsing a written `@api-<key> <value>` line gives back the key and the rest of the line. */
  lemma ApiRoundTrip(key: string, value: string, rest: string)
    requires key != [] && forall k :: 0 <= k < |key| ==> !IsSpace(key[k])
    requires value != [] && !IsSpace(value[0]) && forall k :: 0 <= k < |value| ==> value[k] != '\n'
    requires rest == [] || rest[0] == '\n'
    ensures var a := ApiAnnotation(key, value);
      ApiAt(a + rest, 0) == Some(Api(0, |a|, key, value))
  {
    var a := ApiAnnotation(key, value);
    var s := a + rest;
    var k := 7 + |key|;
    assert s[..7] == "* @api-";
    assert forall q :: 7 <= q < k ==> s[q] == key[q - 7];
    assert s[k] == ' ';
    assert forall q :: k + 1 <= q < |a| ==> s[q] == value[q - k - 1];
    RunEndIs(NonSpace, s, 7, k);
    RunEndIs(Space, s, k, k + 1);
    RunEndIs(NotNewline, s, k + 1, |a|);
    assert s[7..k] == key;
    assert s[k + 1..|a|] == value;
  }

  // ---------------------------------------------------------------------
  // What the patterns can read: only well-formed names come out of a match.

  /** A comma that is not followed by white space starts no priority: `foo,5` is the name `foo` alone. */
  lemma CommaWithoutSpace(s: string, n: nat)
    requires n + 1 < |s| && s[n] == ',' && !IsSpace(s[n + 1])
    ensures PriorityAt(s, n) == None
  { }

  /**
   * `* @<kind> <name>,` followed by anything but white space still matches:
   * the match is the name alone, with no priority, and ends before the comma.
   */
  lemma CommaWithoutSpaceMatch(kind: HookKind, name: string, rest: string)
    requires IsHookName(name)
    requires rest == [] || !IsSpace(rest[0])
    ensures var a := HookAnnotation(kind, name, None);
      HookAt(a + "," + rest, 0) == Some(Hook(0, |a|, kind, name, None))
  {
    var s := HookAnnotation(kind, name, None) + "," + rest;
    var w := 4 + |KindText(kind)|;
    var n := w + |name|;
    CommaLayout(kind, name, rest, s, w, n);
    CommaFront(s, kind, name, w, n);
    if rest != [] {
      CommaWithoutSpace(s, n);
    }
    HookAtName(s, kind, n);
  }

  /** Where the pieces of `* @<kind> <name>,<rest>` sit. */
  lemma CommaLayout(kind: HookKind, name: string, rest: string, s: string, w: nat, n: nat)
    requires s == HookAnnotation(kind, name, None) + "," + rest
    requires w == 4 + |KindText(kind)| && n == w + |name|
    ensures |s| == n + 1 + |rest|
    ensures s[..3] == "* @" && s[3..w - 1] == KindText(kind) && s[w - 1] == ' '
    ensures s[w..n] == name && s[n] == ',' && (rest != [] ==> s[n + 1] == rest[0])
  {
    var more := name + "," + rest;
    assert s == "* @" + KindText(kind) + " " + more;
    HeadLayout(kind, more);
    assert s[w..] == more;
    assert more[..|name|] == name;
  }

  /** The head of the annotation, up to the name's end at the comma. */
  lemma CommaFront(s: string, kind: HookKind, name: string, w: nat, n: nat)
    requires IsHookName(name) && w == 4 + |KindText(kind)| && n == w + |name| && n < |s|
    requires s[..3] == "* @" && s[3..w - 1] == KindText(kind) && s[w - 1] == ' '
    requires s[w..n] == name && s[n] == ','
    ensures HookFrontAt(s, kind, n)
  {
    var kt := KindText(kind);
    assert s[3..3 + |kt|] == kt;
    KindTextAt(kind, s, 3);
    assert s[w] == name[0];
    RunEndIs(Space, s, w - 1, w);
    RunEndOver(HookName, s, w, name);
  }
}
