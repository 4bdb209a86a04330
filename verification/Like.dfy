/** LIKE with backslash escapes, and the escaping that makes user text match only itself. */
module Like {
  /** t matches p: `%` any run, `_` any one character, `\c` the character c, else itself.
      A pattern that ends in a lone backslash matches nothing here. */
  predicate Matches(p: string, t: string)
    decreases |p| + |t|
  {
    if p == "" then t == ""
    else if p[0] == '%' then Matches(p[1..], t) || (t != "" && Matches(p, t[1..]))
    else if p[0] == '\\' then |p| >= 2 && t != "" && t[0] == p[1] && Matches(p[2..], t[1..])
    else t != "" && (p[0] == '_' || t[0] == p[0]) && Matches(p[1..], t[1..])
  }

  predicate Meta(c: char) { c == '\\' || c == '%' || c == '_' }

  function EscapeChar(c: char): string { if Meta(c) then ['\\', c] else [c] }

  function EscapeLike(s: string): string {
    if s == "" then "" else EscapeChar(s[0]) + EscapeLike(s[1..])
  }

  function LikePrefix(s: string): string { EscapeLike(s) + "%" }

  function LikeContains(q: string): string { "%" + EscapeLike(q) + "%" }

  function Fold(s: string): string {
    if s == "" then "" else [FoldChar(s[0])] + Fold(s[1..])
  }

  function FoldChar(c: char): char { if 'A' <= c <= 'Z' then c - 'A' + 'a' else c }

  predicate IMatches(p: string, t: string) { Matches(Fold(p), Fold(t)) }

  predicate Contains(t: string, q: string) { exists i :: 0 <= i <= |t| && q <= t[i..] }

  // ----- what escaped text matches

  lemma {:induction false} AnythingMatches(t: string)
    ensures Matches("%", t)
  {
    if t == "" { assert "%"[1..] == ""; } else { AnythingMatches(t[1..]); }
  }

  lemma EscapedChar(c: char, rest: string, t: string)
    ensures Matches(EscapeChar(c) + rest, t) <==> t != "" && t[0] == c && Matches(rest, t[1..])
  {
    var p := EscapeChar(c) + rest;
    if Meta(c) { assert p[0] == '\\' && p[1] == c && p[2..] == rest; }
    else { assert p[0] == c && p[1..] == rest; }
  }

  lemma StartsWith(s: string, t: string)
    requires s != "" && t != ""
    ensures s <= t <==> s[0] == t[0] && s[1..] <= t[1..]
    ensures s <= t ==> t[1..][|s| - 1..] == t[|s|..]
  {
    if s <= t { assert t[1..][..|s| - 1] == s[1..]; }
    if s[0] == t[0] && s[1..] <= t[1..] { assert t[..|s|] == s; }
  }

  /** Escaped text in front of a pattern matches exactly itself. */
  lemma {:induction false} EscapedMatchesItself(s: string, p: string, t: string)
    ensures Matches(EscapeLike(s) + p, t) <==> s <= t && Matches(p, t[|s|..])
    decreases |s|
  {
    if s == "" {
      assert EscapeLike(s) + p == p && t[0..] == t;
    } else {
      var rest := EscapeLike(s[1..]) + p;
      assert EscapeLike(s) + p == EscapeChar(s[0]) + rest;
      EscapedChar(s[0], rest, t);
      if t != "" {
        EscapedMatchesItself(s[1..], p, t[1..]);
        StartsWith(s, t);
      }
    }
  }

  /** The prefix filter: escapeLike(s) followed by % matches t exactly when t starts with s. */
  lemma PrefixFilter(s: string, t: string)
    ensures Matches(LikePrefix(s), t) <==> s <= t
  {
    EscapedMatchesItself(s, "%", t);
    if s <= t { AnythingMatches(t[|s|..]); }
  }

  /** A leading % lets the rest of the pattern start anywhere. */
  lemma {:induction false} StartsAnywhere(p: string, t: string)
    ensures Matches("%" + p, t) <==> exists i :: 0 <= i <= |t| && Matches(p, t[i..])
    decreases |t|
  {
    assert ("%" + p)[1..] == p;
    assert t[0..] == t;
    if t != "" {
      StartsAnywhere(p, t[1..]);
      assert forall i :: 0 <= i < |t| ==> t[1..][i..] == t[i + 1..];
      if i :| 0 <= i <= |t| && Matches(p, t[i..]) {
        if i > 0 { assert t[1..][i - 1..] == t[i..]; }
      }
    }
  }

  /** The search filter: % escapeLike(q) % matches t exactly when q occurs in t. */
  lemma SearchFilter(q: string, t: string)
    ensures Matches(LikeContains(q), t) <==> Contains(t, q)
  {
    var p := EscapeLike(q) + "%";
    assert LikeContains(q) == "%" + p;
    StartsAnywhere(p, t);
    forall i | 0 <= i <= |t| ensures Matches(p, t[i..]) <==> q <= t[i..] {
      PrefixFilter(q, t[i..]);
    }
  }

  // ----- without regard to case

  lemma {:induction false} FoldAppends(a: string, b: string)
    ensures Fold(a + b) == Fold(a) + Fold(b)
    decreases |a|
  {
    if a == "" { assert a + b == b; }
    else { FoldAppends(a[1..], b); assert (a + b)[1..] == a[1..] + b; }
  }

  lemma {:induction false} FoldLength(a: string)
    ensures |Fold(a)| == |a|
  {
    if a != "" { FoldLength(a[1..]); }
  }

  /** Two characters differ at most in case. */
  predicate SameLetter(a: char, b: char) {
    || a == b
    || ('A' <= a <= 'Z' && b as int == a as int + 32)
    || ('A' <= b <= 'Z' && a as int == b as int + 32)
  }

  /** Folding makes two texts equal exactly when they differ at most in the case of their letters. */
  lemma {:induction false} FoldsTogether(a: string, b: string)
    ensures Fold(a) == Fold(b) <==> |a| == |b| && forall i | 0 <= i < |a| :: SameLetter(a[i], b[i])
    decreases |a|
  {
    FoldLength(a);
    FoldLength(b);
    if a != "" && b != "" {
      FoldsTogether(a[1..], b[1..]);
      assert Fold(a)[0] == FoldChar(a[0]) && Fold(b)[0] == FoldChar(b[0]);
      assert Fold(a)[1..] == Fold(a[1..]) && Fold(b)[1..] == Fold(b[1..]);
      assert FoldChar(a[0]) == FoldChar(b[0]) <==> SameLetter(a[0], b[0]);
      if |a| == |b| && forall i | 0 <= i < |a| :: SameLetter(a[i], b[i]) {
        forall i | 0 <= i < |a[1..]| ensures SameLetter(a[1..][i], b[1..][i]) { assert SameLetter(a[i + 1], b[i + 1]); }
      }
      if Fold(a) == Fold(b) {
        forall i | 0 <= i < |a| ensures SameLetter(a[i], b[i]) {
          if i > 0 { assert SameLetter(a[1..][i - 1], b[1..][i - 1]); }
        }
      }
    }
  }

  /** Folding and escaping commute: no letter is a metacharacter. */
  lemma {:induction false} FoldEscapes(s: string)
    ensures Fold(EscapeLike(s)) == EscapeLike(Fold(s))
    decreases |s|
  {
    if s != "" {
      var c := s[0];
      FoldEscapes(s[1..]);
      FoldAppends(EscapeChar(c), EscapeLike(s[1..]));
      assert Fold(EscapeChar(c)) == EscapeChar(FoldChar(c)) by {
        assert [c][1..] == "";
        if Meta(c) { assert ['\\', c][1..] == [c]; }
      }
      assert Fold(s)[1..] == Fold(s[1..]);
    }
  }

  /** The ILIKE search filter finds exactly the texts that contain q up to case. */
  lemma SearchFilterFolded(q: string, t: string)
    ensures IMatches(LikeContains(q), t) <==> Contains(Fold(t), Fold(q))
  {
    FoldAppends("%" + EscapeLike(q), "%");
    FoldAppends("%", EscapeLike(q));
    FoldEscapes(q);
    assert Fold("%") == "%" by { assert "%"[1..] == ""; }
    assert Fold(LikeContains(q)) == LikeContains(Fold(q));
    SearchFilter(Fold(q), Fold(t));
  }

  // ----- without escaping

  /** A term without metacharacters, put between percent signs as it is. */
  lemma PlainSearch(q: string, t: string)
    requires IsPlain(q)
    ensures IMatches("%" + q + "%", t) <==> Contains(Fold(t), Fold(q))
  {
    PlainEscapes(q);
    SearchFilterFolded(q, t);
  }

  predicate IsPlain(q: string) { forall i | 0 <= i < |q| :: !Meta(q[i]) }

  /** A text that the term, read as a pattern, matches at its start. */
  function Instance(q: string): string {
    if q == "" then ""
    else if q[0] == '%' then Instance(q[1..])
    else if q[0] == '\\' then if |q| == 1 then "%" else [q[1]] + Instance(q[2..])
    else [if q[0] == '_' then 'a' else q[0]] + Instance(q[1..])
  }

  lemma {:induction false} InstanceMatches(q: string)
    ensures Matches(q + "%", Instance(q))
    decreases |q|
  {
    var p, t := q + "%", Instance(q);
    if q == "" {
      AnythingMatches("");
      assert p == "%";
    } else if q[0] == '\\' {
      if |q| == 1 {
        assert p[2..] == "" && t[1..] == "";
      } else {
        InstanceMatches(q[2..]);
        assert p[2..] == q[2..] + "%" && t[1..] == Instance(q[2..]);
      }
    } else {
      InstanceMatches(q[1..]);
      assert p[1..] == q[1..] + "%";
      if q[0] != '%' { assert t[1..] == Instance(q[1..]); }
    }
  }

  /** The term itself is such a text only when it is plain, and no such text is longer. */
  lemma {:induction false} InstanceDiffers(q: string)
    ensures |Instance(q)| <= |q| && (Instance(q) == q <==> IsPlain(q))
    decreases |q|
  {
    if q != "" {
      InstanceDiffers(q[1..]);
      assert q == [q[0]] + q[1..];
      if q[0] == '\\' {
        assert Meta(q[0]);
        if |q| > 1 { InstanceDiffers(q[2..]); }
      } else if Meta(q[0]) {
        assert !IsPlain(q);
        if q[0] == '_' { assert Instance(q)[0] == 'a'; }
      } else {
        assert Instance(q)[1..] == Instance(q[1..]);
        assert IsPlain(q) <==> IsPlain(q[1..]) by {
          forall i | 0 < i < |q| ensures q[i] == q[1..][i - 1] {}
        }
      }
    }
  }

  lemma {:induction false} PlainEscapes(q: string)
    requires IsPlain(q)
    ensures EscapeLike(q) == q
  {
    if q != "" { PlainEscapes(q[1..]); }
  }

  /** Exactly which terms need no escaping: used as it is, a term finds the texts it occurs in, and no
      others, if and only if it has no metacharacter. */
  lemma UnescapedRightExactlyWhenPlain(q: string)
    ensures (forall t :: Matches("%" + q + "%", t) <==> Contains(t, q)) <==> IsPlain(q)
  {
    InstanceDiffers(q);
    if IsPlain(q) {
      PlainEscapes(q);
      forall t ensures Matches("%" + q + "%", t) <==> Contains(t, q) { SearchFilter(q, t); }
    } else {
      var t := Instance(q);
      InstanceMatches(q);
      assert "%" + q + "%" == "%" + (q + "%") && t[0..] == t;
      StartsAnywhere(q + "%", t);
      assert forall i | 0 <= i <= |t| && q <= t[i..] :: |t[i..]| == |t| - i && |q| <= |t| - i;
    }
  }

  /** For instance, this term matches a text it does not occur in. */
  lemma UnescapedTermMisleads()
    ensures Matches("%" + "a_c" + "%", "abc") && !Contains("abc", "a_c")
  {
    var p := "a_c%";
    assert "%" + "a_c" + "%" == "%" + p;
    assert p[1..] == "_c%" && "_c%"[1..] == "c%" && "c%"[1..] == "%";
    assert "abc"[1..] == "bc" && "bc"[1..] == "c" && "c"[1..] == "";
    AnythingMatches("");
    assert Matches("c%", "c") && Matches("_c%", "bc") && Matches(p, "abc"[0..]);
    StartsAnywhere(p, "abc");
    forall i | 0 <= i <= 3 ensures !("a_c" <= "abc"[i..]) {
      assert i == 0 ==> "abc"[i..][1] == 'b';
    }
  }
}
