/**
 * The regular expressions of my-demo2.js (my-demo2.js:3-9) and the lookup both
 * table-driven stages do with them: the first key of a handler table whose
 * expression matches the text (my-demo2.js:90, my-demo2.js:172).
 */
module Patterns {
  import opened Wrappers
  import opened Tokens

  /** The keys of `RegexPattern`. */
  datatype Pattern = Parentheses | WhiteSpace | Numbers | Letters | LeftParenthesis

  /** The character class each expression consists of. */
  predicate CharMatches(p: Pattern, c: char) {
    match p
    case Parentheses => c == '(' || c == ')'
    case WhiteSpace => IsWhitespace(c)
    case Numbers => IsDigit(c)
    case Letters => IsLetter(c)
    case LeftParenthesis => c == '('
  }

  /** `new RegExp(p).test(s)`: the expressions have no anchors, so any character of `s` may match. */
  predicate Test(p: Pattern, s: string) {
    exists k :: 0 <= k < |s| && CharMatches(p, s[k])
  }

  /** `keys.find(pattern => new RegExp(pattern).test(s))`: the first key whose expression matches. */
  function Find(keys: seq<Pattern>, s: string): (r: Option<Pattern>)
    ensures r.Some? ==> exists i :: 0 <= i < |keys| && keys[i] == r.value && Test(keys[i], s) &&
                                   forall j :: 0 <= j < i ==> !Test(keys[j], s)
    ensures r.None? <==> forall i :: 0 <= i < |keys| ==> !Test(keys[i], s)
  {
    if keys == [] then None
    else if Test(keys[0], s) then Some(keys[0])
    else
      var r := Find(keys[1..], s);
      assert r.Some? ==> exists i :: 0 <= i < |keys| && keys[i] == r.value && Test(keys[i], s) &&
                                     forall j :: 0 <= j < i ==> !Test(keys[j], s) by {
        if r.Some? {
          var i :| 0 <= i < |keys[1..]| && keys[1..][i] == r.value && Test(keys[1..][i], s) &&
                   forall j :: 0 <= j < i ==> !Test(keys[1..][j], s);
          assert keys[i + 1] == r.value && Test(keys[i + 1], s);
          forall j | 0 <= j < i + 1 ensures !Test(keys[j], s) {
            if j > 0 { assert keys[j] == keys[1..][j - 1]; }
          }
        }
      }
      assert r.None? ==> forall i :: 0 <= i < |keys| ==> !Test(keys[i], s) by {
        if r.None? {
          forall i | 0 <= i < |keys| ensures !Test(keys[i], s) {
            if i > 0 { assert keys[i] == keys[1..][i - 1]; }
          }
        }
      }
      r
  }

  /** Testing a one-character string tests its character. */
  lemma {:induction false} TestChar(p: Pattern, c: char)
    ensures Test(p, [c]) <==> CharMatches(p, c)
  {
    if CharMatches(p, c) {
      assert [c][0] == c;
    }
  }
}
