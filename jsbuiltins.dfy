/**
 * The JavaScript string and array built-ins the server relies on:
 * `String.prototype.indexOf`, `String.prototype.split` with a one-character
 * separator, `String.prototype.replace` with a string pattern (including the
 * `$`-patterns it expands in the replacement) and `Array.prototype.indexOf`.
 */
module JsBuiltins {

  /** `p` occurs in `s` starting at index `k`. */
  predicate MatchesAt(s: string, p: string, k: nat) {
    k + |p| <= |s| && s[k..k + |p|] == p
  }

  /** The first index at or after `i` where `p` occurs in `s`, or -1. */
  function IndexFrom(s: string, p: string, i: nat): (r: int)
    decreases |s| - i
    ensures r == -1 || (i <= r && MatchesAt(s, p, r))
    ensures r == -1 ==> forall k: nat :: i <= k ==> !MatchesAt(s, p, k)
    ensures r != -1 ==> forall k: nat :: i <= k < r ==> !MatchesAt(s, p, k)
  {
    if i + |p| > |s| then -1
    else if s[i..i + |p|] == p then i
    else IndexFrom(s, p, i + 1)
  }

  /** `s.indexOf(p)`: the first index where `p` occurs in `s`, or -1 when it occurs nowhere. */
  function IndexOf(s: string, p: string): (r: int)
    ensures r == -1 <==> forall k: nat :: !MatchesAt(s, p, k)
    ensures r != -1 ==> 0 <= r <= |s| - |p| && MatchesAt(s, p, r)
    ensures r != -1 ==> forall k: nat :: k < r ==> !MatchesAt(s, p, k)
  {
    IndexFrom(s, p, 0)
  }

  /** `k` is where `p` first occurs in `s`. */
  predicate FirstMatchAt(s: string, p: string, k: nat) {
    MatchesAt(s, p, k) && forall j: nat :: j < k ==> !MatchesAt(s, p, j)
  }

  /** No occurrence of `p` starts inside `a` when `p` itself follows `a`. */
  predicate NoMatchStartsIn(a: string, p: string) {
    forall k: nat :: k < |a| ==> !MatchesAt(a + p, p, k)
  }

  /** An occurrence starting inside `a` ends inside `a + p`, so what follows does not matter. */
  lemma NoMatchStartsInAny(a: string, p: string, b: string)
    requires NoMatchStartsIn(a, p)
    ensures forall k: nat :: k < |a| ==> !MatchesAt(a + p + b, p, k)
  {
    forall k: nat | k < |a| ensures !MatchesAt(a + p + b, p, k) {
      assert !MatchesAt(a + p, p, k);
      assert (a + p + b)[k..k + |p|] == (a + p)[k..k + |p|];
    }
  }

  /** A pattern whose first character does not occur in `a` cannot start inside `a`. */
  lemma FirstCharNotIn(a: string, p: string)
    requires p != [] && p[0] !in a
    ensures NoMatchStartsIn(a, p)
  {
    forall k: nat | k < |a| ensures !MatchesAt(a + p, p, k) {
      assert (a + p)[k..k + |p|][0] == (a + p)[k] == a[k];
    }
  }

  /** A pattern that does not occur before the place it was put is found there. */
  lemma IndexOfAt(a: string, p: string, b: string)
    requires forall k: nat :: k < |a| ==> !MatchesAt(a + p + b, p, k)
    ensures IndexOf(a + p + b, p) == |a|
  {
    var s := a + p + b;
    assert s[|a|..|a| + |p|] == p;
    assert MatchesAt(s, p, |a|);
  }

  /** `arr.indexOf(x)`: the first index of an element identical (`===`) to `x`, or -1. */
  function IndexOfElement<T(==)>(s: seq<T>, x: T): (r: int)
    ensures r == -1 <==> x !in s
    ensures r != -1 ==> 0 <= r < |s| && s[r] == x && x !in s[..r]
  {
    if s == [] then -1
    else if s[0] == x then 0
    else
      var k := IndexOfElement(s[1..], x);
      assert s[1..][..(if k < 0 then 0 else k)] == s[1..(if k < 0 then 1 else k + 1)];
      if k == -1 then -1 else k + 1
  }

  /** Joins `pieces` with `sep` between consecutive ones (`pieces.join(sep)`). */
  function Join(pieces: seq<string>, sep: char): string
    requires |pieces| >= 1
  {
    if |pieces| == 1 then pieces[0] else pieces[0] + ([sep] + Join(pieces[1..], sep))
  }

  /**
   * `s.split(sep)` for a one-character separator: the maximal runs between
   * separators, so an empty string gives `[""]` and a trailing separator an
   * empty last piece.
   */
  function Split(s: string, sep: char): (r: seq<string>)
    decreases |s|
    ensures |r| >= 1
    ensures forall i :: 0 <= i < |r| ==> sep !in r[i]
    ensures Join(r, sep) == s
  {
    if s == [] then [""]
    else
      var rest := Split(s[1..], sep);
      if s[0] == sep then
        assert ([""] + rest)[1..] == rest;
        [""] + rest
      else
        var r := [[s[0]] + rest[0]] + rest[1..];
        assert r[1..] == rest[1..];
        assert Join(r, sep) == [s[0]] + Join(rest, sep) by {
          if |rest| > 1 {
            assert Join(rest, sep) == rest[0] + ([sep] + Join(rest[1..], sep));
          }
        }
        assert s == [s[0]] + s[1..];
        r
  }

  /** Splitting at a first separator yields the piece before it followed by the split of the rest. */
  lemma {:induction false} SplitAt(a: string, sep: char, b: string)
    requires sep !in a
    ensures Split(a + ([sep] + b), sep) == [a] + Split(b, sep)
  {
    if a == [] {
      assert a + ([sep] + b) == [sep] + b;
      assert ([sep] + b)[1..] == b;
    } else {
      var s := a + ([sep] + b);
      assert s[0] == a[0] && s[1..] == a[1..] + ([sep] + b);
      SplitAt(a[1..], sep, b);
      assert [a[0]] + a[1..] == a;
    }
  }

  /** A string without the separator splits into itself alone. */
  lemma {:induction false} SplitNone(s: string, sep: char)
    requires sep !in s
    ensures Split(s, sep) == [s]
  {
    if s != [] {
      SplitNone(s[1..], sep);
      assert [s[0]] + s[1..] == s;
    }
  }

  /** `split` inverts `join` for separator-free pieces. */
  lemma {:induction false} SplitJoin(pieces: seq<string>, sep: char)
    requires |pieces| >= 1
    requires forall i :: 0 <= i < |pieces| ==> sep !in pieces[i]
    ensures Split(Join(pieces, sep), sep) == pieces
  {
    if |pieces| == 1 {
      SplitNone(pieces[0], sep);
    } else {
      SplitAt(pieces[0], sep, Join(pieces[1..], sep));
      SplitJoin(pieces[1..], sep);
      assert pieces == [pieces[0]] + pieces[1..];
    }
  }

  /**
   * The replacement text that `replace` inserts for a string pattern
   * (GetSubstitution in ECMAScript): `$$` gives `$`, `$&` the matched text,
   * `` $` `` the text before the match, `$'` the text after it; every other
   * character, including a `$` not followed by one of these, is copied.
   */
  function Substitution(rep: string, matched: string, before: string, after: string): string
    decreases |rep|
  {
    if rep == [] then []
    else if rep[0] == '$' && |rep| >= 2 && rep[1] in "$&`'" then
      (if rep[1] == '$' then "$"
       else if rep[1] == '&' then matched
       else if rep[1] == '`' then before
       else after)
      + Substitution(rep[2..], matched, before, after)
    else [rep[0]] + Substitution(rep[1..], matched, before, after)
  }

  /** A `$`-free prefix of the replacement is inserted as it is. */
  lemma {:induction false} SubstitutionLiteralPrefix(a: string, r: string, matched: string, before: string, after: string)
    requires '$' !in a
    ensures Substitution(a + r, matched, before, after) == a + Substitution(r, matched, before, after)
  {
    if a != [] {
      assert a[0] in a;
      assert (a + r)[0] == a[0] && (a + r)[1..] == a[1..] + r;
      SubstitutionLiteralPrefix(a[1..], r, matched, before, after);
      calc {
        Substitution(a + r, matched, before, after);
        [a[0]] + Substitution(a[1..] + r, matched, before, after);
        [a[0]] + (a[1..] + Substitution(r, matched, before, after));
        { assert a == [a[0]] + a[1..]; }
        a + Substitution(r, matched, before, after);
      }
    } else {
      assert a + r == r;
    }
  }

  /** A replacement without `$` is inserted literally. */
  lemma SubstitutionLiteral(rep: string, matched: string, before: string, after: string)
    requires '$' !in rep
    ensures Substitution(rep, matched, before, after) == rep
  {
    SubstitutionLiteralPrefix(rep, [], matched, before, after);
    assert rep + [] == rep;
  }

  /** A single `$`-pattern between `$`-free text expands to what it stands for. */
  lemma SubstitutionOnePattern(a: string, c: char, b: string, matched: string, before: string, after: string)
    requires '$' !in a && '$' !in b && c in "$&`'"
    ensures Substitution(a + ['$', c] + b, matched, before, after) ==
      a + (if c == '$' then "$" else if c == '&' then matched else if c == '`' then before else after) + b
  {
    assert a + ['$', c] + b == a + (['$', c] + b);
    SubstitutionLiteralPrefix(a, ['$', c] + b, matched, before, after);
    assert (['$', c] + b)[2..] == b;
    SubstitutionLiteral(b, matched, before, after);
  }

  /** `s` with the `n` characters from index `k` replaced by `ins`. */
  function Splice(s: string, k: nat, n: nat, ins: string): string
    requires k + n <= |s|
  {
    s[..k] + ins + s[k + n..]
  }

  /**
   * `s.replace(p, rep)` for a string pattern: a string in which `p` occurs
   * nowhere is returned as it is; otherwise only the first occurrence is
   * replaced, by `rep` with its `$`-patterns expanded from the text around it.
   */
  function ReplaceFirst(s: string, p: string, rep: string): (r: string)
    ensures (forall k: nat :: !MatchesAt(s, p, k)) ==> r == s
    ensures forall k: nat :: FirstMatchAt(s, p, k) ==>
      r == s[..k] + Substitution(rep, p, s[..k], s[k + |p|..]) + s[k + |p|..]
  {
    var k := IndexOf(s, p);
    if k == -1 then s
    else Splice(s, k, |p|, Substitution(rep, p, s[..k], s[k + |p|..]))
  }

  /** Replacement of the first occurrence by exactly `rep`, without `$`-expansion. */
  function ReplaceFirstLiteral(s: string, p: string, rep: string): string {
    var k := IndexOf(s, p);
    if k == -1 then s else Splice(s, k, |p|, rep)
  }

  /**
   * A pattern put after a prefix `a` inside which no occurrence starts is the
   * one replaced, with `$`-patterns expanded from `a` and `b`.
   */
  lemma ReplaceFirstAt(a: string, p: string, b: string, rep: string)
    requires forall k: nat :: k < |a| ==> !MatchesAt(a + p + b, p, k)
    ensures ReplaceFirst(a + p + b, p, rep) == a + Substitution(rep, p, a, b) + b
    ensures ReplaceFirstLiteral(a + p + b, p, rep) == a + rep + b
  {
    IndexOfAt(a, p, b);
    var s := a + p + b;
    assert s[..|a|] == a;
    assert s[|a| + |p|..] == b;
  }

  /** The same when no occurrence starts inside the prefix `a`, whatever follows the pattern. */
  lemma ReplaceFirstAfter(a: string, p: string, b: string, rep: string)
    requires NoMatchStartsIn(a, p)
    ensures ReplaceFirst(a + p + b, p, rep) == a + Substitution(rep, p, a, b) + b
    ensures ReplaceFirstLiteral(a + p + b, p, rep) == a + rep + b
  {
    NoMatchStartsInAny(a, p, b);
    ReplaceFirstAt(a, p, b, rep);
  }

  /** Where `p` occurs, `replace` is literal replacement by the expanded replacement text. */
  lemma ReplaceFirstExpands(s: string, p: string, rep: string)
    requires IndexOf(s, p) != -1
    ensures var k := IndexOf(s, p);
      ReplaceFirst(s, p, rep) == ReplaceFirstLiteral(s, p, Substitution(rep, p, s[..k], s[k + |p|..]))
  {
  }

  /** Without `$` in the replacement the two kinds of replacement agree. */
  lemma ReplaceFirstLiteralAgrees(s: string, p: string, rep: string)
    requires '$' !in rep
    ensures ReplaceFirst(s, p, rep) == ReplaceFirstLiteral(s, p, rep)
  {
    if IndexOf(s, p) != -1 {
      var k := IndexOf(s, p);
      ReplaceFirstExpands(s, p, rep);
      SubstitutionLiteral(rep, p, s[..k], s[k + |p|..]);
    }
  }
}
