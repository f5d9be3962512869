/** The regular expression matcher of grep against a declarative semantics of patterns. C strings are
    sequences without the terminating NUL; reading one past the end yields NUL.
 */
module Grep {
  /** One item of a pattern: a character to match once, or any number of times. A '.' stands for any
      character. */
  datatype Atom = One(c: char) | Many(c: char)

  /** A pattern after its leading '^': items, and whether a final '$' ties it to the end. */
  datatype Pattern = Pattern(atoms: seq<Atom>, end: bool)

  predicate NulFree(s: string) {
    '\0' !in s
  }

  function At(s: string, i: nat): char {
    if i < |s| then s[i] else '\0'
  }

  /** How the characters of a pattern group into items. */
  function Parse(re: string): Pattern {
    if re == "" then Pattern([], false)
    else if |re| >= 2 && re[1] == '*' then
      var p := Parse(re[2..]);
      Pattern([Many(re[0])] + p.atoms, p.end)
    else if re == "$" then Pattern([], true)
    else
      var p := Parse(re[1..]);
      Pattern([One(re[0])] + p.atoms, p.end)
  }

  predicate Fits(c: char, x: char) {
    c == '.' || c == x
  }

  /** The strings that a sequence of items stands for. */
  ghost predicate InLanguage(atoms: seq<Atom>, w: string) {
    if atoms == [] then w == ""
    else match atoms[0]
      case One(c) => w != "" && Fits(c, w[0]) && InLanguage(atoms[1..], w[1..])
      case Many(c) => exists k :: 0 <= k <= |w| && (forall i | 0 <= i < k :: Fits(c, w[i])) && InLanguage(atoms[1..], w[k..])
  }

  /** The pattern matches some text at its beginning. */
  ghost predicate Begins(p: Pattern, text: string) {
    exists j :: 0 <= j <= |text| && (p.end ==> j == |text|) && InLanguage(p.atoms, text[..j])
  }

  /** The pattern matches somewhere in the text, or at the beginning if it starts with '^'. */
  ghost predicate Occurs(re: string, text: string) {
    if At(re, 0) == '^' then Begins(Parse(re[1..]), text)
    else exists i :: 0 <= i <= |text| && Begins(Parse(re), text[i..])
  }

  method Match(re: string, text: string) returns (r: bool)
    requires NulFree(re) && NulFree(text)
    ensures r <==> Occurs(re, text)
  {
    hide Begins, Parse;
    if At(re, 0) == '^' {
      r := MatchHere(re[1..], text);
      return;
    }
    var i := 0;
    while true
      invariant 0 <= i <= |text|
      invariant forall k | 0 <= k < i :: !Begins(Parse(re), text[k..])
      decreases |text| - i
    {
      var here := MatchHere(re, text[i..]);
      if here {
        return true;
      }
      if At(text, i) == '\0' {
        return false;
      }
      i := i + 1;
    }
  }

  method MatchHere(re: string, text: string) returns (r: bool)
    requires NulFree(re) && NulFree(text)
    ensures r <==> Begins(Parse(re), text)
    decreases |re|, 0
  {
    if At(re, 0) == '\0' {
      assert InLanguage([], text[..0]);
      return true;
    }
    if At(re, 1) == '*' {
      r := MatchStar(re[0], re[2..], text);
      return;
    }
    if re[0] == '$' && At(re, 1) == '\0' {
      EndOnly(text);
      return At(text, 0) == '\0';
    }
    if At(text, 0) != '\0' && (re[0] == '.' || re[0] == text[0]) {
      r := MatchHere(re[1..], text[1..]);
      OneBegins(re[0], Parse(re[1..]), text);
      return;
    }
    OneBegins(re[0], Parse(re[1..]), text);
    return false;
  }

  method MatchStar(c: char, re: string, text: string) returns (r: bool)
    requires NulFree(re) && NulFree(text)
    ensures r <==> Begins(Pattern([Many(c)] + Parse(re).atoms, Parse(re).end), text)
    decreases |re|, 1
  {
    hide Begins, Parse;
    ghost var p := Parse(re);
    var i := 0;
    while true
      invariant 0 <= i <= |text| && (forall k | 0 <= k < i :: Fits(c, text[k]))
      invariant forall k | 0 <= k < i :: !Begins(p, text[k..])
      decreases |text| - i
    {
      var here := MatchHere(re, text[i..]);
      if here {
        ManyBegins(c, p, text, i);
        return true;
      }
      if !(At(text, i) != '\0' && (text[i] == c || c == '.')) {
        NoMany(c, p, text, i);
        return false;
      }
      i := i + 1;
    }
  }

  lemma {:induction false} EndOnly(text: string)
    ensures Begins(Pattern([], true), text) <==> text == ""
  {
    if text == "" {
      assert InLanguage([], text[..0]);
    }
  }

  lemma {:induction false} OneBegins(c: char, p: Pattern, text: string)
    ensures Begins(Pattern([One(c)] + p.atoms, p.end), text) <==> text != "" && Fits(c, text[0]) && Begins(p, text[1..])
  {
    var atoms := [One(c)] + p.atoms;
    assert atoms[1..] == p.atoms;
    if Begins(Pattern(atoms, p.end), text) {
      var j :| 0 <= j <= |text| && (p.end ==> j == |text|) && InLanguage(atoms, text[..j]);
      assert text[..j][1..] == text[1..][..j - 1];
    }
    if text != "" && Fits(c, text[0]) && Begins(p, text[1..]) {
      var j :| 0 <= j <= |text| - 1 && (p.end ==> j == |text| - 1) && InLanguage(p.atoms, text[1..][..j]);
      assert text[..j + 1][1..] == text[1..][..j];
      assert InLanguage(atoms, text[..j + 1]);
    }
  }

  /** A match of the rest after i fitting characters. */
  lemma {:induction false} ManyBegins(c: char, p: Pattern, text: string, i: nat)
    requires i <= |text| && (forall k | 0 <= k < i :: Fits(c, text[k])) && Begins(p, text[i..])
    ensures Begins(Pattern([Many(c)] + p.atoms, p.end), text)
  {
    var atoms := [Many(c)] + p.atoms;
    assert atoms[1..] == p.atoms;
    var j :| 0 <= j <= |text| - i && (p.end ==> j == |text| - i) && InLanguage(p.atoms, text[i..][..j]);
    var w := text[..i + j];
    assert w[i..] == text[i..][..j];
    assert InLanguage(atoms, w);
  }

  /** A match splits into fitting characters and a match of the rest. */
  lemma {:induction false} ManySplits(c: char, p: Pattern, text: string) returns (k: nat)
    requires Begins(Pattern([Many(c)] + p.atoms, p.end), text)
    ensures k <= |text| && (forall m | 0 <= m < k :: Fits(c, text[m])) && Begins(p, text[k..])
  {
    var atoms := [Many(c)] + p.atoms;
    assert atoms[1..] == p.atoms;
    var j :| 0 <= j <= |text| && (p.end ==> j == |text|) && InLanguage(atoms, text[..j]);
    var w := text[..j];
    k :| 0 <= k <= |w| && (forall m | 0 <= m < k :: Fits(c, w[m])) && InLanguage(p.atoms, w[k..]);
    assert forall m | 0 <= m < k :: text[m] == w[m];
    assert w[k..] == text[k..][..j - k];
  }

  /** No match if the rest begins nowhere in the fitting characters. */
  lemma {:induction false} NoMany(c: char, p: Pattern, text: string, i: nat)
    requires i <= |text| && (i < |text| ==> !Fits(c, text[i]))
    requires forall k | 0 <= k <= i :: !Begins(p, text[k..])
    ensures !Begins(Pattern([Many(c)] + p.atoms, p.end), text)
  {
    if Begins(Pattern([Many(c)] + p.atoms, p.end), text) {
      var k := ManySplits(c, p, text);
    }
  }
}
