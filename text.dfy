/**
 * The string operations the shell applies to a line: `str::trim`,
 * `str::split('|')`, `str::split_whitespace` and `[&str]::join`.
 * Whitespace is the fixed set of characters below.
 */
module Text {

  /**
   * The characters with the Unicode White_Space property, which is what
   * Rust's `char::is_whitespace` (and so `trim` and `split_whitespace`) uses.
   */
  predicate IsWhitespace(c: char) {
    ('\t' <= c <= '\r') || c == ' ' || c == '\U{85}' || c == '\U{A0}' || c == '\U{1680}'
    || ('\U{2000}' <= c <= '\U{200A}') || c == '\U{2028}' || c == '\U{2029}'
    || c == '\U{202F}' || c == '\U{205F}' || c == '\U{3000}'
  }

  predicate AllWhitespace(s: string) {
    forall k :: 0 <= k < |s| ==> IsWhitespace(s[k])
  }

  predicate NoWhitespace(s: string) {
    forall k :: 0 <= k < |s| ==> !IsWhitespace(s[k])
  }

  /** The longest prefix of `s` that is all whitespace. */
  function Spaces(s: string): (g: string)
    ensures |g| <= |s| && g == s[..|g|]
    ensures AllWhitespace(g)
    ensures |g| == |s| || !IsWhitespace(s[|g|])
  {
    if |s| == 0 || !IsWhitespace(s[0]) then "" else [s[0]] + Spaces(s[1..])
  }

  /** `str::trim_start`: the suffix left after dropping leading whitespace. */
  function TrimStart(s: string): (r: string)
    ensures |r| <= |s| && r == s[|s| - |r|..]
    ensures AllWhitespace(s[..|s| - |r|])
    ensures r == [] || !IsWhitespace(r[0])
  {
    s[|Spaces(s)|..]
  }

  /** `str::trim_end`: the prefix left after dropping trailing whitespace. */
  function TrimEnd(s: string): (r: string)
    ensures |r| <= |s| && r == s[..|r|]
    ensures AllWhitespace(s[|r|..])
    ensures r == [] || !IsWhitespace(r[|r| - 1])
  {
    if |s| > 0 && IsWhitespace(s[|s| - 1]) then
      var r := TrimEnd(s[..|s| - 1]);
      assert s[|r|..] == s[..|s| - 1][|r|..] + [s[|s| - 1]];
      r
    else
      s
  }

  /**
   * `str::trim`: `s` with leading and trailing whitespace removed, so the
   * result neither starts nor ends with whitespace.
   */
  function Trim(s: string): (r: string)
    ensures |r| <= |s|
    ensures var a := |s| - |TrimStart(s)|;
      a + |r| <= |s| && r == s[a..a + |r|] && AllWhitespace(s[..a]) && AllWhitespace(s[a + |r|..])
    ensures r == [] || (!IsWhitespace(r[0]) && !IsWhitespace(r[|r| - 1]))
  {
    TrimEnd(TrimStart(s))
  }

  /** Dropping leading whitespace keeps every other character. */
  lemma TrimStartKeeps(s: string, c: char)
    requires !IsWhitespace(c)
    ensures c in s <==> c in TrimStart(s)
  {
    var r := TrimStart(s);
    var dropped := s[..|s| - |r|];
    assert s == dropped + r;
    assert forall k :: 0 <= k < |dropped| ==> dropped[k] != c;
  }

  /** Dropping trailing whitespace keeps every other character. */
  lemma TrimEndKeeps(s: string, c: char)
    requires !IsWhitespace(c)
    ensures c in s <==> c in TrimEnd(s)
  {
    var r := TrimEnd(s);
    var dropped := s[|r|..];
    assert s == r + dropped;
    assert forall k :: 0 <= k < |dropped| ==> dropped[k] != c;
  }

  /** Trimming never removes a character that is not whitespace. */
  lemma TrimKeeps(s: string, c: char)
    requires !IsWhitespace(c)
    ensures c in s <==> c in Trim(s)
  {
    TrimStartKeeps(s, c);
    TrimEndKeeps(TrimStart(s), c);
  }

  /** Trimming a trimmed string changes nothing. */
  lemma TrimIdempotent(s: string)
    ensures Trim(Trim(s)) == Trim(s)
  {
    var r := Trim(s);
    assert TrimStart(r) == r;
    assert TrimEnd(r) == r;
  }

  /** `[&str]::join(sep)`: the parts with `sep` between neighbours. */
  function Join(parts: seq<string>, sep: string): string {
    if |parts| == 0 then ""
    else if |parts| == 1 then parts[0]
    else parts[0] + sep + Join(parts[1..], sep)
  }

  /**
   * `str::split(d)`: the pieces of `s` between occurrences of `d`, empty
   * pieces included, so there is always at least one.
   */
  function Split(s: string, d: char): (r: seq<string>)
    ensures |r| >= 1
    ensures forall k :: 0 <= k < |r| ==> d !in r[k]
  {
    if |s| == 0 then [""]
    else
      var rest := Split(s[1..], d);
      if s[0] == d then [""] + rest
      else [[s[0]] + rest[0]] + rest[1..]
  }

  /** There is one more piece than there are delimiters. */
  lemma {:induction false} SplitCount(s: string, d: char)
    ensures |Split(s, d)| == multiset(s)[d] + 1
  {
    if |s| > 0 {
      SplitCount(s[1..], d);
      assert s == [s[0]] + s[1..];
    }
  }

  /** Joining the pieces with the delimiter gives back the string. */
  lemma {:induction false} SplitJoin(s: string, d: char)
    ensures Join(Split(s, d), [d]) == s
  {
    if |s| > 0 {
      SplitJoin(s[1..], d);
      var rest := Split(s[1..], d);
      if s[0] != d {
        var r := Split(s, d);
        assert r[1..] == rest[1..];
        if |rest| > 1 {
          assert Join(rest, [d]) == rest[0] + [d] + Join(rest[1..], [d]);
        }
      } else {
        assert Split(s, d)[1..] == rest;
      }
    }
  }

  /** The longest prefix of `s` that holds no whitespace. */
  function Word(s: string): (w: string)
    ensures |w| <= |s| && w == s[..|w|]
    ensures NoWhitespace(w)
    ensures |w| == |s| || IsWhitespace(s[|w|])
  {
    if |s| == 0 || IsWhitespace(s[0]) then "" else [s[0]] + Word(s[1..])
  }

  /** A token of `split_whitespace`: non-empty and free of whitespace. */
  predicate IsToken(t: string) {
    t != [] && NoWhitespace(t)
  }

  predicate AllTokens(ts: seq<string>) {
    forall k :: 0 <= k < |ts| ==> IsToken(ts[k])
  }

  /** `str::split_whitespace`: the maximal whitespace-free runs of `s`, in order. */
  function Tokens(s: string): (ts: seq<string>)
    ensures AllTokens(ts)
    decreases |s|
  {
    if s == [] then []
    else if IsWhitespace(s[0]) then Tokens(s[1..])
    else
      var w := Word(s);
      [w] + Tokens(s[|w|..])
  }

  /**
   * The whitespace runs around the tokens of `s`: before the first token,
   * between neighbours and after the last one.
   */
  function Gaps(s: string): (gs: seq<string>)
    ensures |gs| >= 1
    decreases |s|
  {
    var g := Spaces(s);
    var rest := s[|g|..];
    if rest == [] then [g]
    else
      var w := Word(rest);
      assert rest[0] == s[|g|];
      [g] + Gaps(rest[|w|..])
  }

  /**
   * Every gap is whitespace, a gap between two tokens is not empty, and a
   * line that starts with whitespace starts with a non-empty gap.
   */
  lemma {:induction false} GapsShape(s: string)
    ensures forall k :: 0 <= k < |Gaps(s)| ==> AllWhitespace(Gaps(s)[k])
    ensures forall k :: 0 < k < |Gaps(s)| - 1 ==> Gaps(s)[k] != []
    ensures s != [] && IsWhitespace(s[0]) ==> Gaps(s)[0] != []
    decreases |s|
  {
    var g := Spaces(s);
    var rest := s[|g|..];
    if rest != [] {
      var w := Word(rest);
      assert rest[0] == s[|g|];
      var after := rest[|w|..];
      GapsShape(after);
      if after != [] {
        assert after[0] == rest[|w|];
      }
      var gs, tail := Gaps(s), Gaps(after);
      assert gs == [g] + tail;
      assert forall k :: 0 < k < |gs| ==> gs[k] == tail[k - 1];
    }
  }

  /** `gaps[0]`, `ts[0]`, `gaps[1]`, …, `ts[|ts| - 1]`, `gaps[|ts|]` in a row. */
  function Weave(gaps: seq<string>, ts: seq<string>): string
    requires |gaps| == |ts| + 1
  {
    if ts == [] then gaps[0] else gaps[0] + ts[0] + Weave(gaps[1..], ts[1..])
  }

  /** Leading whitespace does not change the tokens. */
  lemma {:induction false} TokensAfterSpaces(s: string)
    ensures Tokens(s) == Tokens(s[|Spaces(s)|..])
  {
    if s != [] && IsWhitespace(s[0]) {
      TokensAfterSpaces(s[1..]);
      assert s[|Spaces(s)|..] == s[1..][|Spaces(s[1..])|..];
    }
  }

  /** Weaving a gap and a token in front. */
  lemma WeaveCons(g: string, t: string, gaps: seq<string>, ts: seq<string>)
    requires |gaps| == |ts| + 1
    ensures Weave([g] + gaps, [t] + ts) == g + t + Weave(gaps, ts)
  {
    assert ([g] + gaps)[1..] == gaps;
    assert ([t] + ts)[1..] == ts;
  }

  /**
   * A line with a token is its leading whitespace `g`, its first token `w`
   * and the text `after` it; its gaps and tokens are `g` and `w` in front of
   * those of `after`.
   */
  lemma FirstToken(s: string, g: string, w: string, after: string)
    requires g == Spaces(s) && s[|g|..] != []
    requires w == Word(s[|g|..]) && after == s[|g|..][|w|..]
    ensures s == g + w + after && |after| < |s|
    ensures Gaps(s) == [g] + Gaps(after)
    ensures Tokens(s) == [w] + Tokens(after)
  {
    var rest := s[|g|..];
    assert rest[0] == s[|g|];
    assert s == g + rest && rest == w + after;
    TokensAfterSpaces(s);
  }

  /**
   * A line is its tokens woven with its whitespace runs: the tokens are
   * exactly the maximal whitespace-free runs of the line, in order.
   */
  lemma {:induction false} TokensWeave(s: string)
    ensures |Gaps(s)| == |Tokens(s)| + 1
    ensures Weave(Gaps(s), Tokens(s)) == s
    decreases |s|
  {
    var g := Spaces(s);
    var rest := s[|g|..];
    if rest == [] {
      TokensAfterSpaces(s);
      assert s == g;
    } else {
      var w := Word(rest);
      var after := rest[|w|..];
      FirstToken(s, g, w, after);
      TokensWeave(after);
      WeaveCons(g, w, Gaps(after), Tokens(after));
    }
  }

  /** A line has no tokens exactly when it is all whitespace. */
  lemma {:induction false} TokensEmpty(s: string)
    ensures Tokens(s) == [] <==> AllWhitespace(s)
  {
    if s != [] && IsWhitespace(s[0]) {
      TokensEmpty(s[1..]);
      assert s == [s[0]] + s[1..];
    }
  }

  /** Leading whitespace does not change the tokens. */
  lemma TokensSkipSpace(c: char, s: string)
    requires IsWhitespace(c)
    ensures Tokens([c] + s) == Tokens(s)
  {
    assert ([c] + s)[1..] == s;
  }

  /** The first word of a token followed by nothing or by whitespace is that token. */
  lemma {:induction false} WordOfToken(t: string, rest: string)
    requires NoWhitespace(t)
    requires rest == [] || IsWhitespace(rest[0])
    ensures Word(t + rest) == t
  {
    if |t| == 0 {
    } else {
      assert (t + rest)[1..] == t[1..] + rest;
      WordOfToken(t[1..], rest);
    }
  }

  /** The tokens of a token followed by whitespace and more text. */
  lemma TokensOfTokenThen(t: string, rest: string)
    requires IsToken(t)
    requires rest == [] || IsWhitespace(rest[0])
    ensures Tokens(t + rest) == [t] + Tokens(rest)
  {
    var j := t + rest;
    WordOfToken(t, rest);
    assert j[|t|..] == rest;
  }

  /** A token, a space and more text: the token, then the tokens of the text. */
  lemma TokensOfTokenSpace(t: string, rest: string)
    requires IsToken(t)
    ensures Tokens(t + " " + rest) == [t] + Tokens(rest)
  {
    assert t + " " + rest == t + ([' '] + rest);
    TokensOfTokenThen(t, [' '] + rest);
    TokensSkipSpace(' ', rest);
  }

  /** The tokens of joined tokens: the first one, then the tokens of the rest joined. */
  lemma TokensOfJoin(ts: seq<string>)
    requires AllTokens(ts) && |ts| > 1
    ensures Tokens(Join(ts, " ")) == [ts[0]] + Tokens(Join(ts[1..], " "))
  {
    assert IsToken(ts[0]);
    TokensOfTokenSpace(ts[0], Join(ts[1..], " "));
  }

  /** Splitting a single token on whitespace gives it back. */
  lemma TokensJoinOne(ts: seq<string>)
    requires AllTokens(ts) && |ts| == 1
    ensures Tokens(Join(ts, " ")) == ts
  {
    TokensOfTokenThen(ts[0], "");
    assert ts[0] + "" == ts[0];
    assert Tokens("") == [];
    assert Join(ts, " ") == ts[0];
  }

  /** Splitting joined tokens on whitespace gives them back. */
  lemma {:induction false} TokensJoin(ts: seq<string>)
    requires AllTokens(ts)
    ensures Tokens(Join(ts, " ")) == ts
  {
    if |ts| == 0 {
      assert Tokens("") == [];
    } else if |ts| == 1 {
      TokensJoinOne(ts);
    } else {
      TokensOfJoin(ts);
      TokensJoin(ts[1..]);
      assert ts == [ts[0]] + ts[1..];
    }
  }

  /**
   * Every whitespace character of `s` is a single space with a
   * non-whitespace character on each side.
   */
  predicate SingleSpaced(s: string) {
    forall k :: 0 <= k < |s| && IsWhitespace(s[k]) ==>
      s[k] == ' ' && 0 < k < |s| - 1 && !IsWhitespace(s[k - 1]) && !IsWhitespace(s[k + 1])
  }

  /** Tokens joined by one space are single-spaced and start with a token character. */
  lemma {:induction false} JoinSingleSpaced(ts: seq<string>)
    requires AllTokens(ts)
    ensures var j := Join(ts, " ");
      SingleSpaced(j) && (ts != [] ==> j != [] && !IsWhitespace(j[0]))
  {
    if |ts| == 1 {
      assert IsToken(ts[0]);
    } else if |ts| > 1 {
      var t := ts[0];
      var rest := Join(ts[1..], " ");
      JoinSingleSpaced(ts[1..]);
      var j := t + " " + rest;
      assert Join(ts, " ") == j;
      assert IsToken(t);
      forall k | 0 <= k < |j| && IsWhitespace(j[k])
        ensures j[k] == ' ' && 0 < k < |j| - 1 && !IsWhitespace(j[k - 1]) && !IsWhitespace(j[k + 1])
      {
        if k > |t| {
          assert j[k] == rest[k - |t| - 1];
          assert j[k - 1] == rest[k - |t| - 2];
        }
      }
    }
  }
}
