/** The user search (internal/users/store.go): the input is escaped into an ILIKE
    pattern that must mean "contains". */
module SearchPattern {

  predicate IsMeta(c: char) {
    c == '%' || c == '_' || c == '\\'
  }

  /** The replacer: each metacharacter is preceded by a backslash. */
  function Escape(s: string): string {
    if s == "" then ""
    else if IsMeta(s[0]) then ['\\', s[0]] + Escape(s[1..])
    else [s[0]] + Escape(s[1..])
  }

  function Pattern(search: string): string {
    "%" + Escape(search) + "%"
  }

  /** text LIKE pattern ESCAPE '\'. A dangling escape, which the database rejects,
      matches nothing. */
  predicate Like(p: string, e: string)
    decreases |p| + |e|
  {
    if p == "" then e == ""
    else if p[0] == '%' then Like(p[1..], e) || (e != "" && Like(p, e[1..]))
    else if p[0] == '_' then e != "" && Like(p[1..], e[1..])
    else if p[0] == '\\' then |p| > 1 && e != "" && e[0] == p[1] && Like(p[2..], e[1..])
    else e != "" && e[0] == p[0] && Like(p[1..], e[1..])
  }

  /** No escape character stands alone at the end. */
  predicate WellFormed(p: string) {
    if p == "" then true
    else if p[0] == '\\' then |p| > 1 && WellFormed(p[2..])
    else WellFormed(p[1..])
  }

  function Fold(f: char -> char, s: string): (r: string)
    ensures |r| == |s|
    ensures forall i :: 0 <= i < |s| ==> r[i] == f(s[i])
  {
    if s == "" then "" else [f(s[0])] + Fold(f, s[1..])
  }

  /** Case folding leaves the metacharacters alone and produces no new ones. */
  ghost predicate KeepsMeta(f: char -> char) {
    forall c :: (IsMeta(c) ==> f(c) == c) && (IsMeta(f(c)) ==> IsMeta(c))
  }

  /** text ILIKE pattern ESCAPE '\': LIKE on the folded strings. */
  predicate ILike(f: char -> char, p: string, e: string) {
    Like(Fold(f, p), Fold(f, e))
  }

  ghost predicate Contains(e: string, s: string) {
    exists i :: 0 <= i <= |e| && s <= e[i..]
  }

  lemma {:induction false} PercentMatchesAll(e: string)
    ensures Like("%", e)
  {
    if e != "" {
      PercentMatchesAll(e[1..]);
    }
  }

  /** A leading % skips any prefix. */
  lemma {:induction false} PercentSkips(q: string, e: string)
    ensures Like("%" + q, e) <==> exists i :: 0 <= i <= |e| && Like(q, e[i..])
    decreases |e|
  {
    var p := "%" + q;
    assert p[1..] == q;
    assert e[0..] == e;
    if e != "" {
      PercentSkips(q, e[1..]);
      forall i | 0 <= i <= |e| - 1 ensures e[1..][i..] == e[i + 1..] {
      }
      if Like(p, e[1..]) {
        var i :| 0 <= i <= |e[1..]| && Like(q, e[1..][i..]);
        assert Like(q, e[i + 1..]);
      }
      if i :| 0 <= i <= |e| && Like(q, e[i..]) {
        assert i > 0 ==> Like(q, e[1..][i - 1..]);
      }
    }
  }

  /** An escaped literal consumes exactly itself. */
  lemma {:induction false} EscapedIsLiteral(s: string, q: string, e: string)
    ensures Like(Escape(s) + q, e) <==> s <= e && Like(q, e[|s|..])
    decreases |s|
  {
    if s == "" {
      assert Escape(s) + q == q && e[0..] == e;
    } else {
      var rest := Escape(s[1..]) + q;
      var p := Escape(s) + q;
      if IsMeta(s[0]) {
        assert p[0] == '\\' && p[1] == s[0] && p[2..] == rest;
      } else {
        assert p[0] == s[0] && p[1..] == rest;
      }
      if e != "" {
        EscapedIsLiteral(s[1..], q, e[1..]);
        assert s <= e <==> s[0] == e[0] && s[1..] <= e[1..];
        assert s <= e ==> e[1..][|s| - 1..] == e[|s|..];
      }
    }
  }

  /** For all strings, whatever metacharacters they hold: the pattern matches a text
      exactly when the text contains the search string. */
  lemma PatternMeansContains(s: string, e: string)
    ensures Like(Pattern(s), e) <==> Contains(e, s)
  {
    assert Pattern(s) == "%" + (Escape(s) + "%");
    PercentSkips(Escape(s) + "%", e);
    forall i | 0 <= i <= |e| ensures Like(Escape(s) + "%", e[i..]) <==> s <= e[i..] {
      EscapedIsLiteral(s, "%", e[i..]);
      if s <= e[i..] {
        PercentMatchesAll(e[i..][|s|..]);
      }
    }
  }

  lemma {:induction false} FoldEscape(f: char -> char, s: string)
    requires KeepsMeta(f)
    ensures Fold(f, Escape(s)) == Escape(Fold(f, s))
  {
    if s != "" {
      FoldEscape(f, s[1..]);
      assert Fold(f, s)[1..] == Fold(f, s[1..]);
      if IsMeta(s[0]) {
        FoldConcat(f, ['\\', s[0]], Escape(s[1..]));
        assert Fold(f, ['\\', s[0]]) == ['\\', s[0]];
      } else {
        FoldConcat(f, [s[0]], Escape(s[1..]));
        assert !IsMeta(f(s[0]));
      }
    }
  }

  lemma FoldConcat(f: char -> char, a: string, b: string)
    ensures Fold(f, a + b) == Fold(f, a) + Fold(f, b)
  {
  }

  function AsciiLower(c: char): char {
    if 'A' <= c <= 'Z' then (c as int + 32) as char else c
  }

  /** KeepsMeta can be met: ASCII lower-casing does. */
  lemma AsciiLowerKeepsMeta()
    ensures KeepsMeta(AsciiLower)
  {
  }

  /** ... and under ILIKE, when it contains it up to case. */
  lemma SearchIsCaseBlindContains(f: char -> char, s: string, e: string)
    requires KeepsMeta(f)
    ensures ILike(f, Pattern(s), e) <==> Contains(Fold(f, e), Fold(f, s))
  {
    FoldConcat(f, "%" + Escape(s), "%");
    FoldConcat(f, "%", Escape(s));
    FoldEscape(f, s);
    assert f('%') == '%' && Fold(f, "%") == "%";
    assert Fold(f, Pattern(s)) == Pattern(Fold(f, s));
    PatternMeansContains(Fold(f, s), Fold(f, e));
  }

  lemma {:induction false} EscapeWellFormed(s: string, q: string)
    requires WellFormed(q)
    ensures WellFormed(Escape(s) + q)
    decreases |s|
  {
    if s == "" {
      assert Escape(s) + q == q;
    } else {
      EscapeWellFormed(s[1..], q);
      var rest := Escape(s[1..]) + q;
      if IsMeta(s[0]) {
        assert Escape(s) + q == ['\\', s[0]] + rest;
        WellFormedAfter(['\\', s[0]], rest);
      } else {
        assert Escape(s) + q == [s[0]] + rest;
        WellFormedAfter([s[0]], rest);
      }
    }
  }

  lemma WellFormedAfter(head: string, rest: string)
    requires WellFormed(rest)
    requires (|head| == 2 && head[0] == '\\') || (|head| == 1 && head[0] != '\\')
    ensures WellFormed(head + rest)
  {
    assert (head + rest)[|head|..] == rest;
  }

  /** The database never sees a dangling escape. */
  lemma PatternWellFormed(s: string)
    ensures WellFormed(Pattern(s))
  {
    EscapeWellFormed(s, "%");
    assert Pattern(s)[1..] == Escape(s) + "%";
  }

  /** Unescaped, the law fails: searching "_" would match every one-character text. */
  lemma UnescapedFails()
    ensures Like("%" + "_" + "%", "a") && !Contains("a", "_")
  {
    assert ("%" + "_" + "%")[1..] == "_%";
    assert "_%"[1..] == "%" && "a"[1..] == "";
    PercentMatchesAll("");
    assert Like("_%", "a");
    forall i | 0 <= i <= |"a"| ensures !("_" <= "a"[i..]) {
    }
  }
}
