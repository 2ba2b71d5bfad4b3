/**
 * ASCII case helpers and the snake-case conversion of src/Util/Strings.php.
 *
 * `toSnakeCase` is `strtolower(preg_replace('/(?<!^)[A-Z]/', '_$0', $str))`:
 * an underscore is put before every A-Z that is not at offset 0, and then the
 * whole string is lower-cased.  PHP's `strtolower` only maps A-Z.
 */
module Strings {

  predicate IsUpper(c: char) { 'A' <= c <= 'Z' }

  predicate IsLower(c: char) { 'a' <= c <= 'z' }

  predicate IsLetter(c: char) { IsUpper(c) || IsLower(c) }

  /** `strtolower` on one character. */
  function LowerChar(c: char): (r: char)
    ensures !IsUpper(r)
    ensures IsUpper(c) ==> IsLower(r) && r as int == c as int + 32
    ensures !IsUpper(c) ==> r == c
  {
    if IsUpper(c) then (c as int + 32) as char else c
  }

  /** `strtoupper` on one character (used by `ucfirst`). */
  function UpperChar(c: char): (r: char)
    ensures !IsLower(r)
    ensures IsLower(c) ==> IsUpper(r) && r as int == c as int - 32
    ensures !IsLower(c) ==> r == c
  {
    if IsLower(c) then (c as int - 32) as char else c
  }

  /** `strtolower`. */
  function Lower(s: string): (r: string)
    ensures |r| == |s|
    ensures forall k :: 0 <= k < |s| ==> r[k] == LowerChar(s[k])
  {
    seq(|s|, k requires 0 <= k < |s| => LowerChar(s[k]))
  }

  /** `ucfirst`. */
  function UcFirst(s: string): (r: string)
    ensures |r| == |s|
    ensures s != [] ==> r[0] == UpperChar(s[0]) && r[1..] == s[1..]
  {
    if s == [] then [] else [UpperChar(s[0])] + s[1..]
  }

  lemma LowerAppend(a: string, b: string)
    ensures Lower(a + b) == Lower(a) + Lower(b)
  {
  }

  /** Case-insensitive comparison is blind to `ucfirst`. */
  lemma LowerUcFirst(s: string)
    ensures Lower(UcFirst(s)) == Lower(s)
  {
    if s != [] {
      assert LowerChar(UpperChar(s[0])) == LowerChar(s[0]);
      assert Lower(UcFirst(s))[0] == Lower(s)[0];
    }
  }

  /** The replacement text of `(?<!^)[A-Z]` -> `_$0` for a character that is not at offset 0. */
  function Piece(c: char): string
  {
    if IsUpper(c) then ['_', c] else [c]
  }

  /** `preg_replace` applied to the part of the subject after offset 0. */
  function Underscored(t: string): (r: string)
  {
    if t == [] then [] else Piece(t[0]) + Underscored(t[1..])
  }

  /** `preg_replace('/(?<!^)[A-Z]/', '_$0', s)`: offset 0 is never preceded by `_`. */
  function InsertUnderscores(s: string): (r: string)
    ensures |r| == |s| + (if s == [] then 0 else UpperCount(s[1..]))
    ensures s != [] ==> r[0] == s[0]
  {
    UnderscoredLength(if s == [] then [] else s[1..]);
    if s == [] then [] else [s[0]] + Underscored(s[1..])
  }

  /** Number of A-Z characters in `t`. */
  function UpperCount(t: string): nat
  {
    if t == [] then 0 else (if IsUpper(t[0]) then 1 else 0) + UpperCount(t[1..])
  }

  function ToSnakeCase(s: string): (r: string)
    ensures forall k :: 0 <= k < |r| ==> !IsUpper(r[k])
    ensures |r| == |s| + (if s == [] then 0 else UpperCount(s[1..]))
    ensures s != [] ==> r[0] == LowerChar(s[0])
  {
    Lower(InsertUnderscores(s))
  }

  /** Past offset 0, each further character is replaced on its own: an A-Z gets an underscore in front. */
  lemma InsertUnderscoresSnoc(s: string, c: char)
    requires s != []
    ensures InsertUnderscores(s + [c]) == InsertUnderscores(s) + Piece(c)
  {
    assert (s + [c])[0] == s[0];
    assert (s + [c])[1..] == s[1..] + [c];
    UnderscoredAppend(s[1..], [c]);
    assert Underscored([c]) == Piece(c) by {
      assert [c][1..] == [];
    }
  }

  /** A single character is only lower-cased: offset 0 never gets an underscore. */
  lemma SnakeCaseSingle(c: char)
    ensures ToSnakeCase([c]) == [LowerChar(c)]
  {
    assert InsertUnderscores([c]) == [c];
  }

  /**
   * Appending a character after offset 0 appends `_` and its lower-case form
   * when it is A-Z, and its lower-case form alone otherwise.
   */
  lemma SnakeCaseSnoc(s: string, c: char)
    requires s != []
    ensures ToSnakeCase(s + [c]) == ToSnakeCase(s) + (if IsUpper(c) then ['_', LowerChar(c)] else [LowerChar(c)])
  {
    InsertUnderscoresSnoc(s, c);
    LowerAppend(InsertUnderscores(s), Piece(c));
  }

  /**
   * Those two equations determine the conversion: any function that lower-cases
   * a single character and extends like `SnakeCaseSnoc` is `ToSnakeCase`.
   */
  lemma {:induction false} SnakeCaseDetermined(f: string -> string, s: string)
    requires forall c: char :: f([c]) == [LowerChar(c)]
    requires forall t: string, c: char :: t != [] ==>
      f(t + [c]) == f(t) + (if IsUpper(c) then ['_', LowerChar(c)] else [LowerChar(c)])
    requires f([]) == []
    ensures f(s) == ToSnakeCase(s)
    decreases |s|
  {
    if |s| == 1 {
      assert s == [s[0]];
      SnakeCaseSingle(s[0]);
    } else if |s| > 1 {
      var init, c := s[..|s| - 1], s[|s| - 1];
      assert s == init + [c];
      SnakeCaseDetermined(f, init);
      SnakeCaseSnoc(init, c);
    }
  }

  lemma {:induction false} UnderscoredLength(t: string)
    ensures |Underscored(t)| == |t| + UpperCount(t)
  {
    if t != [] {
      UnderscoredLength(t[1..]);
    }
  }

  lemma {:induction false} UnderscoredNoUpper(t: string)
    requires forall k :: 0 <= k < |t| ==> !IsUpper(t[k])
    ensures Underscored(t) == t
  {
    if t != [] {
      UnderscoredNoUpper(t[1..]);
    }
  }

  /** A string without A-Z comes back unchanged. */
  lemma SnakeCaseNoUpper(s: string)
    requires forall k :: 0 <= k < |s| ==> !IsUpper(s[k])
    ensures ToSnakeCase(s) == s
  {
    if s != [] {
      UnderscoredNoUpper(s[1..]);
      assert InsertUnderscores(s) == s;
    }
  }

  /** Converting twice is the same as converting once. */
  lemma SnakeCaseIdempotent(s: string)
    ensures ToSnakeCase(ToSnakeCase(s)) == ToSnakeCase(s)
  {
    SnakeCaseNoUpper(ToSnakeCase(s));
  }

  /** Characters that are neither ASCII letters nor `_`, in order. */
  function Others(s: string): string
  {
    if s == [] then [] else (if IsLetter(s[0]) || s[0] == '_' then [] else [s[0]]) + Others(s[1..])
  }

  /** Number of `_` characters. */
  function Underscores(s: string): nat
  {
    if s == [] then 0 else (if s[0] == '_' then 1 else 0) + Underscores(s[1..])
  }

  lemma {:induction false} OthersAppend(a: string, b: string)
    ensures Others(a + b) == Others(a) + Others(b)
  {
    if a == [] {
      assert a + b == b;
    } else {
      assert (a + b)[0] == a[0];
      assert (a + b)[1..] == a[1..] + b;
      OthersAppend(a[1..], b);
    }
  }

  lemma {:induction false} UnderscoresAppend(a: string, b: string)
    ensures Underscores(a + b) == Underscores(a) + Underscores(b)
  {
    if a == [] {
      assert a + b == b;
    } else {
      assert (a + b)[0] == a[0];
      assert (a + b)[1..] == a[1..] + b;
      UnderscoresAppend(a[1..], b);
    }
  }

  lemma {:induction false} LowerKeepsOthers(s: string)
    ensures Others(Lower(s)) == Others(s)
    ensures Underscores(Lower(s)) == Underscores(s)
  {
    if s != [] {
      assert Lower(s)[1..] == Lower(s[1..]);
      LowerKeepsOthers(s[1..]);
    }
  }

  lemma {:induction false} UnderscoredKeepsOthers(t: string)
    ensures Others(Underscored(t)) == Others(t)
    ensures Underscores(Underscored(t)) == Underscores(t) + UpperCount(t)
  {
    if t != [] {
      OthersAppend(Piece(t[0]), Underscored(t[1..]));
      UnderscoresAppend(Piece(t[0]), Underscored(t[1..]));
      UnderscoredKeepsOthers(t[1..]);
      assert Others(t) == Others([t[0]]) + Others(t[1..]) by {
        assert t == [t[0]] + t[1..];
        OthersAppend([t[0]], t[1..]);
      }
      assert Underscores(t) == Underscores([t[0]]) + Underscores(t[1..]) by {
        assert t == [t[0]] + t[1..];
        UnderscoresAppend([t[0]], t[1..]);
      }
    }
  }

  /**
   * Every character other than a letter or `_` survives in its original order,
   * and the only `_` added are the ones put before the upper-case letters after
   * offset 0.
   */
  lemma SnakeCaseKeepsOthers(s: string)
    ensures Others(ToSnakeCase(s)) == Others(s)
    ensures Underscores(ToSnakeCase(s)) == Underscores(s) + (if s == [] then 0 else UpperCount(s[1..]))
  {
    LowerKeepsOthers(InsertUnderscores(s));
    if s != [] {
      assert s == [s[0]] + s[1..];
      OthersAppend([s[0]], s[1..]);
      OthersAppend([s[0]], Underscored(s[1..]));
      UnderscoresAppend([s[0]], s[1..]);
      UnderscoresAppend([s[0]], Underscored(s[1..]));
      UnderscoredKeepsOthers(s[1..]);
    }
  }

  lemma {:induction false} UnderscoredAppend(a: string, b: string)
    ensures Underscored(a + b) == Underscored(a) + Underscored(b)
  {
    if a == [] {
      assert a + b == b;
    } else {
      assert (a + b)[0] == a[0];
      assert (a + b)[1..] == a[1..] + b;
      UnderscoredAppend(a[1..], b);
    }
  }
}

/** Worked examples of the snake-case conversion. */
module SnakeCaseExamples {
  import opened Strings

  /** Leading upper case is not a word boundary. */
  lemma HandleMySubmitExample(name: string)
    requires name == "HandleMySubmit" || name == "handleMySubmit"
    ensures ToSnakeCase(name) == "handle_my_submit"
  {
    HandleMySubmitSplit();
    HandleMySubmitTail(name[1..]);
    SnakeCaseOfTail(name[0], name[1..]);
    assert name == [name[0]] + name[1..];
  }

  lemma HandleMySubmitTail(tail: string)
    requires tail == "andleMySubmit"
    ensures Lower(Underscored(tail)) == "andle_my_submit"
  {
    UnderscoredMySubmit(tail);
    LowerMySubmit(Underscored(tail));
  }

  lemma UnderscoredMySubmit(tail: string)
    requires tail == "andleMySubmit"
    ensures Underscored(tail) == "andle_My_Submit"
  {
    var a, m, b := "andle", "My", "Submit";
    MySubmitPieces();
    UnderscoredNoUpper(a);
    UnderscoredCapitalised(m);
    UnderscoredCapitalised(b);
    UnderscoredAppend(a + m, b);
    UnderscoredAppend(a, m);
  }

  lemma {:induction false} UnderscoredCapitalised(w: string)
    requires w != [] && IsUpper(w[0])
    requires forall k :: 1 <= k < |w| ==> !IsUpper(w[k])
    ensures Underscored(w) == ['_'] + w
  {
    UnderscoredNoUpper(w[1..]);
    assert w == [w[0]] + w[1..];
  }

  lemma MySubmitPieces()
    ensures "andleMySubmit" == ("andle" + "My") + "Submit"
    ensures "andle_My_Submit" == ("andle" + (['_'] + "My")) + (['_'] + "Submit")
  {
  }

  lemma LowerMySubmit(u: string)
    requires u == "andle_My_Submit"
    ensures Lower(u) == "andle_my_submit"
  {
  }

  lemma HandleMySubmitSplit()
    ensures "HandleMySubmit" == ['H'] + "andleMySubmit"
    ensures "handleMySubmit" == ['h'] + "andleMySubmit"
    ensures "handle_my_submit" == ['h'] + "andle_my_submit"
  {
  }

  lemma SnakeCaseOfTail(c: char, t: string)
    ensures ToSnakeCase([c] + t) == [LowerChar(c)] + Lower(Underscored(t))
  {
    assert ([c] + t)[1..] == t;
    LowerAppend([c], Underscored(t));
  }

  /** Consecutive capitals each get their own underscore. */
  lemma ConsecutiveCapitalsExample()
    ensures ToSnakeCase("ABC") == "a_b_c"
  {
  }
}
