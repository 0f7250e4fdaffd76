/** The part of JavaScript regular expressions the routing patterns use, with its meaning
    as the set of positions where a match starting at `i` can end. */
module Regex {

  datatype Regex =
    | Empty
    | Literal(text: string)
    | AnyOf(alternatives: seq<Regex>)   // (?:a|b|...)
    | Then(first: Regex, second: Regex)
    | Optional(inner: Regex)            // a?
    | DotStar                           // .*
    | NotSlashStar                      // [^/]*
    | EndOfInput                        // $
    | NotAhead(inner: Regex)            // (?!a)

  /** Characters `.` does not match. */
  predicate LineTerminator(c: char) {
    c == '\n' || c == '\r' || c == '\U{2028}' || c == '\U{2029}'
  }

  predicate HasPrefixAt(s: string, i: nat, text: string) {
    i + |text| <= |s| && s[i..i + |text|] == text
  }

  /** Where a match of `r` that starts at `i` can end. */
  ghost predicate Matches(r: Regex, s: string, i: nat, j: nat)
    requires i <= |s|
    decreases r
  {
    match r
    case Empty => j == i
    case Literal(text) => j == i + |text| && HasPrefixAt(s, i, text)
    case AnyOf(alternatives) => exists k | 0 <= k < |alternatives| :: Matches(alternatives[k], s, i, j)
    case Then(first, second) => exists m | i <= m <= |s| :: Matches(first, s, i, m) && Matches(second, s, m, j)
    case Optional(inner) => j == i || Matches(inner, s, i, j)
    case DotStar => i <= j <= |s| && forall k | i <= k < j :: !LineTerminator(s[k])
    case NotSlashStar => i <= j <= |s| && forall k | i <= k < j :: s[k] != '/'
    case EndOfInput => j == i == |s|
    case NotAhead(inner) => j == i && !exists k | i <= k <= |s| :: Matches(inner, s, i, k)
  }

  /** `r` matches some prefix of the rest of the input. */
  ghost predicate MatchesFrom(r: Regex, s: string, i: nat)
    requires i <= |s|
  {
    exists j | i <= j <= |s| :: Matches(r, s, i, j)
  }

  lemma {:induction false} ThenSplits(first: Regex, second: Regex, s: string, i: nat, j: nat) returns (m: nat)
    requires i <= |s|
    requires Matches(Then(first, second), s, i, j)
    ensures i <= m <= |s| && Matches(first, s, i, m) && Matches(second, s, m, j)
  {
    m :| i <= m <= |s| && Matches(first, s, i, m) && Matches(second, s, m, j);
  }

  lemma {:induction false} ThenJoins(first: Regex, second: Regex, s: string, i: nat, m: nat, j: nat)
    requires i <= m <= |s|
    requires Matches(first, s, i, m) && Matches(second, s, m, j)
    ensures Matches(Then(first, second), s, i, j)
  {
  }

  lemma {:induction false} LiteralMeans(text: string, s: string, i: nat, j: nat)
    requires i <= |s|
    ensures Matches(Literal(text), s, i, j) <==> i <= j <= |s| && s[i..j] == text
  {
  }

  lemma {:induction false} ThenFrom(first: Regex, second: Regex, s: string, i: nat)
    requires i <= |s|
    ensures MatchesFrom(Then(first, second), s, i)
       <==> exists m | i <= m <= |s| :: Matches(first, s, i, m) && MatchesFrom(second, s, m)
  {
    if MatchesFrom(Then(first, second), s, i) {
      var j :| i <= j <= |s| && Matches(Then(first, second), s, i, j);
      var m := ThenSplits(first, second, s, i, j);
      MatchesForward(second, s, m, j);
    }
    if m :| i <= m <= |s| && Matches(first, s, i, m) && MatchesFrom(second, s, m) {
      var j :| m <= j <= |s| && Matches(second, s, m, j);
      ThenJoins(first, second, s, i, m, j);
    }
  }

  /** A match never ends before it starts. */
  lemma {:induction false} MatchesForward(r: Regex, s: string, i: nat, j: nat)
    requires i <= |s| && Matches(r, s, i, j)
    ensures i <= j <= |s|
    decreases r
  {
    match r
    case AnyOf(alternatives) =>
      var k :| 0 <= k < |alternatives| && Matches(alternatives[k], s, i, j);
      MatchesForward(alternatives[k], s, i, j);
    case Then(first, second) =>
      var m := ThenSplits(first, second, s, i, j);
      MatchesForward(second, s, m, j);
    case Optional(inner) =>
      if j != i {
        MatchesForward(inner, s, i, j);
      }
    case _ =>
  }

  lemma {:induction false} AnyOfFrom(list: seq<Regex>, s: string, i: nat)
    requires i <= |s|
    ensures MatchesFrom(AnyOf(list), s, i) <==> exists k | 0 <= k < |list| :: MatchesFrom(list[k], s, i)
  {
    if MatchesFrom(AnyOf(list), s, i) {
      var j :| i <= j <= |s| && Matches(AnyOf(list), s, i, j);
      var k :| 0 <= k < |list| && Matches(list[k], s, i, j);
      assert MatchesFrom(list[k], s, i);
    }
    if k :| 0 <= k < |list| && MatchesFrom(list[k], s, i) {
      var j :| i <= j <= |s| && Matches(list[k], s, i, j);
      assert Matches(AnyOf(list), s, i, j);
    }
  }

  /** A list joined with `|`: joining nothing gives the empty pattern. */
  function Alternation(alternatives: seq<Regex>): Regex {
    if alternatives == [] then Empty else AnyOf(alternatives)
  }
}
