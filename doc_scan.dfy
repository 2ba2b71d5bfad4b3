/**
 * Hand-written matchers for the four `preg_match_all` patterns of the hook
 * traits, and the global (left-to-right, non-overlapping) scan that
 * `preg_match_all` performs with each of them.
 *
 *   hooks     `#\* @(?P<type>filter|action|shortcode)\s+(?P<name>[a-z0-9\/\=\-\._]+)(?:,\s+(?P<priority>\d+))?#`
 *   commands  `#\* @(?P<type>command)\s+(?P<name>[a-z0-9\/\=\-\._\: ]+)?#`
 *   ajax      `#\* @(?P<type>ajax)\s+?(?P<name>[a-z0-9\/\=\-\._]+)?#`
 *   api       `#\* @api-(?P<api_key>\S+)\s+(?P<api_value>.+)#`
 *
 * Each matcher returns the first match PCRE's backtracking finds at a given
 * offset.  A group that does not take part in the match is absent from PHP's
 * match array (it is always the last group here), so it is an `Option`.
 */
module DocScan {
  import opened Wrappers

  /** PCRE's `\s` without Unicode support: HT, LF, VT, FF, CR and space. */
  predicate IsSpace(c: char)
  {
    c == ' ' || c == '\t' || c == '\n' || c == '\r' || c == '\U{B}' || c == '\U{C}'
  }

  predicate IsDigit(c: char) { '0' <= c <= '9' }

  /** `[a-z0-9\/\=\-\._]`: lower case only. */
  predicate IsHookNameChar(c: char)
  {
    'a' <= c <= 'z' || IsDigit(c) || c == '/' || c == '=' || c == '-' || c == '.' || c == '_'
  }

  /** `[a-z0-9\/\=\-\._\: ]`: the hook-name characters plus `:` and space. */
  predicate IsCommandNameChar(c: char)
  {
    IsHookNameChar(c) || c == ':' || c == ' '
  }

  datatype CharClass = Space | NonSpace | Digit | HookName | CommandName | NotNewline

  predicate InClass(cc: CharClass, c: char)
  {
    match cc
    case Space => IsSpace(c)
    case NonSpace => !IsSpace(c)
    case Digit => IsDigit(c)
    case HookName => IsHookNameChar(c)
    case CommandName => IsCommandNameChar(c)
    case NotNewline => c != '\n'
  }

  /** End of the longest run of `cc` characters starting at `i` (a greedy `+`/`*`). */
  function RunEnd(cc: CharClass, s: string, i: nat): (r: nat)
    requires i <= |s|
    ensures i <= r <= |s|
    ensures forall k :: i <= k < r ==> InClass(cc, s[k])
    ensures r == |s| || !InClass(cc, s[r])
    decreases |s| - i
  {
    if i < |s| && InClass(cc, s[i]) then RunEnd(cc, s, i + 1) else i
  }

  /** The run end is determined by the two properties above. */
  lemma {:induction false} RunEndIs(cc: CharClass, s: string, i: nat, r: nat)
    requires i <= r <= |s|
    requires forall k :: i <= k < r ==> InClass(cc, s[k])
    requires r == |s| || !InClass(cc, s[r])
    ensures RunEnd(cc, s, i) == r
    decreases r - i
  {
    if i < r {
      RunEndIs(cc, s, i + 1, r);
    }
  }

  predicate LiteralAt(s: string, i: nat, lit: string)
  {
    i + |lit| <= |s| && s[i..i + |lit|] == lit
  }

  /** A name the hook and ajax patterns accept: `[a-z0-9/=\-._]+`. */
  predicate IsHookName(name: string)
  {
    name != [] && forall k :: 0 <= k < |name| ==> IsHookNameChar(name[k])
  }

  predicate IsDigits(d: string)
  {
    d != [] && forall k :: 0 <= k < |d| ==> IsDigit(d[k])
  }

  /** A name the command pattern accepts: `[a-z0-9:/=\-._ ]+` after the white space. */
  predicate IsCommandName(name: string)
  {
    name != [] && !IsSpace(name[0]) && forall k :: 0 <= k < |name| ==> IsCommandNameChar(name[k])
  }

  datatype HookKind = Filter | Action | Shortcode

  function KindText(kind: HookKind): string
  {
    match kind
    case Filter => "filter"
    case Action => "action"
    case Shortcode => "shortcode"
  }

  /** The alternation `filter|action|shortcode`, tried in that order. */
  function KindAt(s: string, i: nat): (r: Option<HookKind>)
    ensures r.Some? ==> LiteralAt(s, i, KindText(r.value))
    ensures r.None? ==> forall k: HookKind :: !LiteralAt(s, i, KindText(k))
  {
    if LiteralAt(s, i, "filter") then Some(Filter)
    else if LiteralAt(s, i, "action") then Some(Action)
    else if LiteralAt(s, i, "shortcode") then Some(Shortcode)
    else None
  }

  datatype Match =
    | Hook(start: nat, end: nat, kind: HookKind, name: string, priority: Option<string>)
    | Command(start: nat, end: nat, command: Option<string>)
    | Ajax(start: nat, end: nat, handle: Option<string>)
    | Api(start: nat, end: nat, key: string, value: string)

  datatype Pattern = HookPattern | CommandPattern | AjaxPattern | ApiPattern

  /** The match belongs to the pattern that produced it, and its groups hold what the pattern allows. */
  predicate Conforms(p: Pattern, m: Match)
  {
    match p
    case HookPattern =>
      m.Hook? && IsHookName(m.name) && (m.priority.Some? ==> IsDigits(m.priority.value))
    case CommandPattern => m.Command? && (m.command.Some? ==> IsCommandName(m.command.value))
    case AjaxPattern => m.Ajax? && (m.handle.Some? ==> IsHookName(m.handle.value))
    case ApiPattern => m.Api?
  }

  /** `(?:,\s+(?P<priority>\d+))?` after a name that ends at `n`: the digit span, if any. */
  function PriorityAt(s: string, n: nat): (r: Option<(nat, nat)>)
    requires n <= |s|
    ensures r.Some? ==> n + 1 < r.value.0 < r.value.1 <= |s| && s[n] == ','
    ensures r.Some? ==> AllSpace(s, n + 1, r.value.0)
    ensures r.Some? ==> IsDigits(s[r.value.0..r.value.1]) && (r.value.1 == |s| || !IsDigit(s[r.value.1]))
    ensures r.None? ==> NoPriorityAfter(s, n)
  {
    if n < |s| && s[n] == ',' then
      var d0 := RunEnd(Space, s, n + 1);
      var d := RunEnd(Digit, s, d0);
      if d0 > n + 1 && d > d0 then Some((d0, d))
      else
        NoPriorityFrom(s, n, d0, d);
        None
    else None
  }

  predicate AllSpace(s: string, lo: nat, hi: nat)
    requires lo <= hi <= |s|
  {
    forall k :: lo <= k < hi ==> IsSpace(s[k])
  }

  /** After a comma, no run of one or more white-space characters is followed by a digit. */
  predicate NoPriorityAfter(s: string, n: nat)
    requires n <= |s|
  {
    n < |s| && s[n] == ',' ==>
      forall j :: n + 1 < j < |s| && AllSpace(s, n + 1, j) ==> !IsDigit(s[j])
  }

  lemma NoPriorityFrom(s: string, n: nat, d0: nat, d: nat)
    requires n < |s| && s[n] == ','
    requires d0 == RunEnd(Space, s, n + 1) && d == RunEnd(Digit, s, d0)
    requires !(d0 > n + 1 && d > d0)
    ensures NoPriorityAfter(s, n)
  {
    forall j | n + 1 < j < |s| && AllSpace(s, n + 1, j)
      ensures !IsDigit(s[j])
    {
      assert j <= d0;
    }
  }

  function HookAt(s: string, i: nat): (r: Option<Match>)
    requires i <= |s|
    ensures r.Some? ==> r.value.Hook? && r.value.start == i && i < r.value.end <= |s|
    ensures r.Some? ==> IsHookName(r.value.name)
    ensures r.Some? && r.value.priority.Some? ==> IsDigits(r.value.priority.value)
  {
    if !LiteralAt(s, i, "* @") then None
    else match KindAt(s, i + 3)
      case None => None
      case Some(kind) =>
        var w0 := i + 3 + |KindText(kind)|;
        var w := RunEnd(Space, s, w0);
        var n := RunEnd(HookName, s, w);
        if w == w0 || n == w then None
        else match PriorityAt(s, n)
          case None => Some(Hook(i, n, kind, s[w..n], None))
          case Some(span) => Some(Hook(i, span.1, kind, s[w..n], Some(s[span.0..span.1])))
  }

  function CommandAt(s: string, i: nat): (r: Option<Match>)
    requires i <= |s|
    ensures r.Some? ==> r.value.Command? && r.value.start == i && i < r.value.end <= |s|
    ensures r.Some? && r.value.command.Some? ==> IsCommandName(r.value.command.value)
  {
    if !LiteralAt(s, i, "* @command") then None
    else
      var w0 := i + 10;
      var w := RunEnd(Space, s, w0);
      var n := RunEnd(CommandName, s, w);
      if w == w0 then None
      else Some(Command(i, n, if n == w then None else Some(s[w..n])))
  }

  /** The lazy `\s+?` takes exactly one white-space character before the optional name. */
  function AjaxAt(s: string, i: nat): (r: Option<Match>)
    requires i <= |s|
    ensures r.Some? ==> r.value.Ajax? && r.value.start == i && i < r.value.end <= |s|
    ensures r.Some? && r.value.handle.Some? ==> IsHookName(r.value.handle.value)
  {
    if !LiteralAt(s, i, "* @ajax") || i + 7 >= |s| || !IsSpace(s[i + 7]) then None
    else
      var n := RunEnd(HookName, s, i + 8);
      Some(Ajax(i, n, if n == i + 8 then None else Some(s[i + 8..n])))
  }

  /** Largest `j` with `lo <= j < hi` and `s[j]` not a line feed. */
  function LastNonNewline(s: string, lo: nat, hi: nat): (r: Option<nat>)
    requires lo <= hi <= |s|
    ensures r.Some? ==> lo <= r.value < hi && s[r.value] != '\n'
    ensures r.Some? ==> forall k :: r.value < k < hi ==> s[k] == '\n'
    ensures r.None? ==> forall k :: lo <= k < hi ==> s[k] == '\n'
    decreases hi - lo
  {
    if hi <= lo then None
    else if s[hi - 1] != '\n' then Some(hi - 1)
    else LastNonNewline(s, lo, hi - 1)
  }

  /**
   * `\S+` takes the whole key (nothing after it could match otherwise); the
   * greedy `\s+` then gives back white space only when `.+` finds nothing
   * after it, which happens at the end of the subject.
   */
  function ApiAt(s: string, i: nat): (r: Option<Match>)
    requires i <= |s|
    ensures r.Some? ==> r.value.Api? && r.value.start == i && i < r.value.end <= |s|
    ensures r.Some? ==> LiteralAt(s, i, "* @api-") && ApiLayout(s, i, r.value)
  {
    if !LiteralAt(s, i, "* @api-") then None
    else
      var k := RunEnd(NonSpace, s, i + 7);
      var w := RunEnd(Space, s, k);
      if k == i + 7 || w == k then None
      else
        var j := if w < |s| then Some(w) else LastNonNewline(s, k + 1, w);
        match j
        case None => None
        case Some(v) =>
          var e := RunEnd(NotNewline, s, v);
          ApiLayoutFrom(s, i, k, w, v, e);
          Some(Api(i, e, s[i + 7..k], s[v..e]))
  }

  /** The key runs from `i + 7` to `k`, white space from `k` to `v`, the value from `v` to `e`. */
  lemma ApiLayoutFrom(s: string, i: nat, k: nat, w: nat, v: nat, e: nat)
    requires i + 7 < k <= |s| && forall q :: i + 7 <= q < k ==> !IsSpace(s[q])
    requires k < v <= w <= |s| && AllSpace(s, k, w)
    requires v < |s| && s[v] != '\n' && e == RunEnd(NotNewline, s, v)
    ensures ApiLayout(s, i, Api(i, e, s[i + 7..k], s[v..e]))
  {
  }

  /**
   * Where the groups of an api match lie: a non-empty key without white space
   * right after `* @api-`, one or more white-space characters, then a non-empty
   * value that runs to the end of its line.
   */
  predicate ApiLayout(s: string, i: nat, m: Match)
    requires m.Api? && m.end <= |s|
  {
    var k := i + 7 + |m.key|;
    var v := m.end - |m.value|;
    && m.key != [] && (forall q :: 0 <= q < |m.key| ==> !IsSpace(m.key[q]))
    && m.value != [] && (forall q :: 0 <= q < |m.value| ==> m.value[q] != '\n')
    && k < v && s[i + 7..k] == m.key && s[v..m.end] == m.value && AllSpace(s, k, v)
    && (m.end == |s| || s[m.end] == '\n')
  }

  /** The match of pattern `p` that starts at offset `i`, if there is one. */
  function MatchAt(p: Pattern, s: string, i: nat): (r: Option<Match>)
    requires i <= |s|
    ensures r.Some? ==> Conforms(p, r.value) && r.value.start == i && i < r.value.end <= |s|
  {
    match p
    case HookPattern => HookAt(s, i)
    case CommandPattern => CommandAt(s, i)
    case AjaxPattern => AjaxAt(s, i)
    case ApiPattern => ApiAt(s, i)
  }

  /** What the matcher answers at every offset `0 <= k <= |s|` of the subject. */
  function MatchTable(p: Pattern, s: string): (t: seq<Option<Match>>)
    ensures |t| == |s| + 1
    ensures forall k :: 0 <= k < |t| ==> t[k] == MatchAt(p, s, k)
    ensures Table(t)
  {
    seq(|s| + 1, k requires 0 <= k <= |s| => MatchAt(p, s, k))
  }

  /** A match found at offset `k` starts there and ends after it, inside the subject. */
  predicate Table(t: seq<Option<Match>>)
  {
    forall k :: 0 <= k < |t| && t[k].Some? ==> t[k].value.start == k < t[k].value.end < |t|
  }

  /** The scan of `preg_match_all`: leftmost match, then resume where it ended. */
  function Scan(t: seq<Option<Match>>, i: nat): (r: seq<Match>)
    requires Table(t) && i <= |t|
    ensures forall j :: 0 <= j < |r| ==> i <= r[j].start < |t| && t[r[j].start] == Some(r[j])
    decreases |t| - i
  {
    if i == |t| then []
    else match t[i]
      case Some(m) => [m] + Scan(t, m.end)
      case None => Scan(t, i + 1)
  }

  /** `preg_match_all($pattern, $s, $matches, PREG_SET_ORDER)`. */
  function MatchAll(p: Pattern, s: string): (r: seq<Match>)
    ensures forall j :: 0 <= j < |r| ==> Conforms(p, r[j]) && r[j].start < r[j].end <= |s|
    ensures forall j :: 0 <= j < |r| ==> MatchAt(p, s, r[j].start) == Some(r[j])
  {
    var t := MatchTable(p, s);
    var r := Scan(t, 0);
    assert forall j :: 0 <= j < |r| ==> t[r[j].start] == MatchAt(p, s, r[j].start);
    r
  }

  // ---------------------------------------------------------------------
  // What a global scan is, independently of how Scan computes it.

  predicate Covered(ms: seq<Match>, k: nat)
  {
    exists j :: 0 <= j < |ms| && ms[j].start <= k < ms[j].end
  }

  /**
   * `ms` is the result of scanning from `from`: every element is the match
   * found at its start, the matches do not overlap and follow document order,
   * and every offset from `from` on where the pattern matches lies inside one
   * of them.
   */
  predicate IsScan(t: seq<Option<Match>>, from: nat, ms: seq<Match>)
  {
    && (forall j :: 0 <= j < |ms| ==> from <= ms[j].start < |t| && t[ms[j].start] == Some(ms[j]))
    && Ordered(ms)
    && Complete(t, from, ms)
  }

  predicate Ordered(ms: seq<Match>)
  {
    forall a, b :: 0 <= a < b < |ms| ==> ms[a].end <= ms[b].start
  }

  predicate Complete(t: seq<Option<Match>>, from: nat, ms: seq<Match>)
  {
    forall k :: from <= k < |t| && t[k].Some? ==> Covered(ms, k)
  }

  lemma {:induction false} ScanOrdered(t: seq<Option<Match>>, i: nat)
    requires Table(t) && i <= |t|
    ensures Ordered(Scan(t, i))
    decreases |t| - i
  {
    if i < |t| {
      if t[i].Some? {
        var m := t[i].value;
        var rest := Scan(t, m.end);
        ScanOrdered(t, m.end);
        PrependOrdered(m, rest);
      } else {
        ScanOrdered(t, i + 1);
      }
    }
  }

  lemma PrependOrdered(m: Match, rest: seq<Match>)
    requires Ordered(rest)
    requires forall q :: 0 <= q < |rest| ==> m.end <= rest[q].start
    ensures Ordered([m] + rest)
  {
    var r := [m] + rest;
    forall a, b | 0 <= a < b < |r|
      ensures r[a].end <= r[b].start
    {
      assert r[b] == rest[b - 1];
      if a > 0 {
        assert r[a] == rest[a - 1];
      }
    }
  }

  lemma {:induction false} ScanComplete(t: seq<Option<Match>>, i: nat)
    requires Table(t) && i <= |t|
    ensures Complete(t, i, Scan(t, i))
    decreases |t| - i
  {
    if i < |t| {
      if t[i].Some? {
        var m := t[i].value;
        var rest := Scan(t, m.end);
        ScanComplete(t, m.end);
        PrependComplete(t, i, m, rest);
      } else {
        ScanComplete(t, i + 1);
      }
    }
  }

  lemma PrependComplete(t: seq<Option<Match>>, i: nat, m: Match, rest: seq<Match>)
    requires m.start == i < m.end
    requires Complete(t, m.end, rest)
    ensures Complete(t, i, [m] + rest)
  {
    var r := [m] + rest;
    forall k | i <= k < |t| && t[k].Some?
      ensures Covered(r, k)
    {
      if k < m.end {
        assert r[0].start <= k < r[0].end;
      } else {
        var j :| 0 <= j < |rest| && rest[j].start <= k < rest[j].end;
        assert r[j + 1] == rest[j];
      }
    }
  }

  /** Scan is a global scan. */
  lemma ScanIsScan(t: seq<Option<Match>>, i: nat)
    requires Table(t) && i <= |t|
    ensures IsScan(t, i, Scan(t, i))
  {
    ScanOrdered(t, i);
    ScanComplete(t, i);
  }

  /** A global scan is unique: any sequence with the properties of IsScan is Scan's. */
  lemma {:induction false} ScanIsUnique(t: seq<Option<Match>>, from: nat, ms: seq<Match>)
    requires Table(t) && from <= |t|
    requires IsScan(t, from, ms)
    ensures ms == Scan(t, from)
    decreases |t| - from
  {
    if from == |t| {
      assert ms == [];
    } else if t[from].Some? {
      FirstOfScan(t, from, ms);
      RestOfScan(t, from, ms);
      var m, rest := ms[0], ms[1..];
      ScanIsUnique(t, m.end, rest);
      assert Scan(t, from) == [m] + Scan(t, m.end);
      assert ms == [m] + rest;
    } else {
      SkipNoMatch(t, from, ms);
      ScanIsUnique(t, from + 1, ms);
      assert Scan(t, from) == Scan(t, from + 1);
    }
  }

  lemma SkipNoMatch(t: seq<Option<Match>>, from: nat, ms: seq<Match>)
    requires Table(t) && from < |t| && t[from].None?
    requires IsScan(t, from, ms)
    ensures IsScan(t, from + 1, ms)
  {
    forall q | 0 <= q < |ms|
      ensures from + 1 <= ms[q].start
    {
      assert t[ms[q].start].Some?;
    }
  }

  lemma FirstOfScan(t: seq<Option<Match>>, from: nat, ms: seq<Match>)
    requires Table(t) && from < |t| && t[from].Some?
    requires IsScan(t, from, ms)
    ensures ms != [] && ms[0] == t[from].value
  {
    assert Covered(ms, from);
    var j :| 0 <= j < |ms| && ms[j].start <= from < ms[j].end;
    assert t[ms[0].start] == Some(ms[0]) && from <= ms[0].start < ms[0].end;
    FirstComesFirst(ms);
    assert j == 0;
  }

  lemma FirstComesFirst(ms: seq<Match>)
    requires Ordered(ms) && ms != []
    ensures forall q :: 0 < q < |ms| ==> ms[0].end <= ms[q].start
  {
  }

  lemma RestOfScan(t: seq<Option<Match>>, from: nat, ms: seq<Match>)
    requires Table(t) && from < |t|
    requires IsScan(t, from, ms) && ms != [] && t[from] == Some(ms[0])
    ensures IsScan(t, ms[0].end, ms[1..])
  {
    RestStartsAfterFirst(ms);
    RestComplete(t, ms);
    RestOrdered(ms);
  }

  lemma RestStartsAfterFirst(ms: seq<Match>)
    requires Ordered(ms) && ms != []
    ensures forall q :: 0 <= q < |ms| - 1 ==> ms[0].end <= ms[1..][q].start
  {
    forall q | 0 <= q < |ms| - 1
      ensures ms[0].end <= ms[1..][q].start
    {
      assert ms[1..][q] == ms[q + 1];
    }
  }

  lemma RestOrdered(ms: seq<Match>)
    requires Ordered(ms) && ms != []
    ensures Ordered(ms[1..])
  {
    var rest := ms[1..];
    forall a, b | 0 <= a < b < |rest|
      ensures rest[a].end <= rest[b].start
    {
      assert rest[a] == ms[a + 1] && rest[b] == ms[b + 1];
    }
  }

  lemma RestComplete(t: seq<Option<Match>>, ms: seq<Match>)
    requires ms != [] && ms[0].start < ms[0].end && Complete(t, ms[0].start, ms)
    ensures Complete(t, ms[0].end, ms[1..])
  {
    var rest := ms[1..];
    forall k | ms[0].end <= k < |t| && t[k].Some?
      ensures Covered(rest, k)
    {
      assert Covered(ms, k);
      var q :| 0 <= q < |ms| && ms[q].start <= k < ms[q].end;
      assert q != 0;
      assert rest[q - 1] == ms[q];
    }
  }

  /**
   * `MatchAll` is the global scan of the subject: its matches are in document
   * order, do not overlap, and every offset where the pattern matches is inside
   * one of them; and no other sequence has these properties.
   */
  lemma MatchAllIsScan(p: Pattern, s: string, ms: seq<Match>)
    ensures IsScan(MatchTable(p, s), 0, MatchAll(p, s))
    ensures IsScan(MatchTable(p, s), 0, ms) ==> ms == MatchAll(p, s)
  {
    ScanIsScan(MatchTable(p, s), 0);
    if IsScan(MatchTable(p, s), 0, ms) {
      ScanIsUnique(MatchTable(p, s), 0, ms);
    }
  }

  /** The scan is empty exactly when the pattern matches at no offset. */
  lemma MatchAllEmpty(p: Pattern, s: string)
    ensures MatchAll(p, s) == [] <==> forall k :: 0 <= k <= |s| ==> MatchAt(p, s, k).None?
  {
    var t := MatchTable(p, s);
    ScanIsScan(t, 0);
    var r := MatchAll(p, s);
    if r != [] {
      assert MatchAt(p, s, r[0].start).Some?;
    }
    forall k | 0 <= k <= |s| && MatchAt(p, s, k).Some?
      ensures r != []
    {
      assert t[k].Some?;
      assert Covered(r, k);
    }
  }
}
