/**
  * The pieces of JavaScript string semantics the booking form relies on: the
  * whitespace class shared by `String.prototype.trim` and the regular-expression
  * escape `\s` (ECMAScript's WhiteSpace and LineTerminator productions), `trim`
  * itself, and "occurs inside" for stating what a text contains.
  */
module JsText {

  /** ECMAScript WhiteSpace (tab, VT, FF, space, NBSP, BOM and the Zs category) or LineTerminator. */
  predicate IsJsWhitespace(c: char) {
    || c == '\U{0009}' || c == '\U{000B}' || c == '\U{000C}' || c == ' ' || c == '\U{00A0}'
    || c == '\U{FEFF}' || c == '\U{1680}' || ('\U{2000}' <= c <= '\U{200A}') || c == '\U{202F}'
    || c == '\U{205F}' || c == '\U{3000}'
    || c == '\n' || c == '\r' || c == '\U{2028}' || c == '\U{2029}'
  }

  /** Every character of `s` is whitespace (the empty string included). */
  predicate IsBlank(s: string) {
    forall i :: 0 <= i < |s| ==> IsJsWhitespace(s[i])
  }

  function TrimStart(s: string): string {
    if s != [] && IsJsWhitespace(s[0]) then TrimStart(s[1..]) else s
  }

  function TrimEnd(s: string): string {
    if s != [] && IsJsWhitespace(s[|s| - 1]) then TrimEnd(s[..|s| - 1]) else s
  }

  /** `s.trim()`. */
  function Trim(s: string): string {
    TrimEnd(TrimStart(s))
  }

  lemma {:induction false} TrimStartEmptyIffBlank(s: string)
    ensures TrimStart(s) == [] <==> IsBlank(s)
  {
    if s != [] && IsJsWhitespace(s[0]) {
      TrimStartEmptyIffBlank(s[1..]);
      assert IsBlank(s) <==> IsBlank(s[1..]) by {
        if IsBlank(s[1..]) {
          forall i | 0 <= i < |s| ensures IsJsWhitespace(s[i]) {
            if i > 0 { assert s[i] == s[1..][i - 1]; }
          }
        }
      }
    }
  }

  lemma {:induction false} TrimEndEmptyIffBlank(s: string)
    ensures TrimEnd(s) == [] <==> IsBlank(s)
  {
    if s != [] && IsJsWhitespace(s[|s| - 1]) {
      var init := s[..|s| - 1];
      TrimEndEmptyIffBlank(init);
      assert IsBlank(s) <==> IsBlank(init) by {
        if IsBlank(init) {
          forall i | 0 <= i < |s| ensures IsJsWhitespace(s[i]) {
            if i < |s| - 1 { assert s[i] == init[i]; }
          }
        }
      }
    }
  }

  lemma {:induction false} TrimEndOfTrimmedStart(s: string)
    ensures TrimEnd(TrimStart(s)) == [] <==> TrimStart(s) == []
  {
    var t := TrimStart(s);
    TrimEndEmptyIffBlank(t);
    if t != [] {
      TrimStartNotWhitespace(s);
    }
  }

  lemma {:induction false} TrimStartNotWhitespace(s: string)
    requires TrimStart(s) != []
    ensures !IsJsWhitespace(TrimStart(s)[0])
  {
    if s != [] && IsJsWhitespace(s[0]) {
      TrimStartNotWhitespace(s[1..]);
    }
  }

  /** `!s.trim()` holds exactly when `s` is blank. */
  lemma TrimEmptyIffBlank(s: string)
    ensures Trim(s) == [] <==> IsBlank(s)
  {
    TrimEndOfTrimmedStart(s);
    TrimStartEmptyIffBlank(s);
  }

  /** `t` occurs in `s` starting at position `k`. */
  predicate OccursAt(t: string, s: string, k: int) {
    0 <= k <= |s| - |t| && s[k..k + |t|] == t
  }

  /** `t` occurs in `s` as a contiguous piece. */
  ghost predicate IsInfix(t: string, s: string) {
    exists k :: OccursAt(t, s, k)
  }

  lemma InfixOfConcat(p: string, t: string, q: string)
    ensures IsInfix(t, p + t + q)
  {
    var s := p + t + q;
    assert OccursAt(t, s, |p|);
  }

  /** The pieces of `ps` joined end to end, as a template literal joins its parts. */
  function Concat(ps: seq<string>): string {
    if ps == [] then [] else ps[0] + Concat(ps[1..])
  }

  lemma {:induction false} ConcatSplit(ps: seq<string>, i: nat)
    requires i <= |ps|
    ensures Concat(ps) == Concat(ps[..i]) + Concat(ps[i..])
  {
    if i > 0 {
      ConcatSplit(ps[1..], i - 1);
      assert ps[1..][..i - 1] == ps[..i][1..];
      assert ps[1..][i - 1..] == ps[i..];
    } else {
      assert ps[..0] == [];
      assert ps[0..] == ps;
    }
  }

  /** Any run of consecutive pieces occurs in the joined text. */
  lemma PieceRunInfix(ps: seq<string>, i: nat, j: nat)
    requires i <= j <= |ps|
    ensures IsInfix(Concat(ps[i..j]), Concat(ps))
  {
    ConcatSplit(ps, j);
    ConcatSplit(ps[..j], i);
    assert ps[..j][..i] == ps[..i];
    assert ps[..j][i..] == ps[i..j];
    InfixOfConcat(Concat(ps[..i]), Concat(ps[i..j]), Concat(ps[j..]));
  }

  /** Each single piece occurs in the joined text. */
  lemma PieceInfix(ps: seq<string>, i: nat)
    requires i < |ps|
    ensures IsInfix(ps[i], Concat(ps))
  {
    var one := ps[i..i + 1];
    PieceRunInfix(ps, i, i + 1);
    assert one[0] == ps[i] && one[1..] == [];
    assert Concat(one) == ps[i] + Concat([]);
    assert ps[i] + [] == ps[i];
  }

  /** A character occurs in the joined text exactly when it occurs in one of the pieces. */
  lemma {:induction false} ConcatHas(ps: seq<string>, c: char)
    ensures c in Concat(ps) <==> exists i :: 0 <= i < |ps| && c in ps[i]
  {
    if ps != [] {
      ConcatHas(ps[1..], c);
      assert c in Concat(ps) <==> c in ps[0] || c in Concat(ps[1..]);
      if c in Concat(ps[1..]) {
        var i :| 0 <= i < |ps[1..]| && c in ps[1..][i];
        assert c in ps[i + 1];
      }
      if exists i :: 0 <= i < |ps| && c in ps[i] {
        var i :| 0 <= i < |ps| && c in ps[i];
        if i > 0 {
          assert c in ps[1..][i - 1];
        }
      }
    }
  }
}
