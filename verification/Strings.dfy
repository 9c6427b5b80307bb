/** Splitting strings at dots, as strings.Split and strings.Join do, and letter case. */
module Strings {

  type Tokens = seq<string>

  function Split(s: string): (tokens: Tokens)
    ensures |tokens| > 0
  {
    if |s| == 0 then [""]
    else
      var rest := Split(s[1..]);
      if s[0] == '.' then [""] + rest else [[s[0]] + rest[0]] + rest[1..]
  }

  function Join(tokens: Tokens): string
    requires |tokens| > 0
  {
    if |tokens| == 1 then tokens[0] else tokens[0] + "." + Join(tokens[1..])
  }

  predicate NoDot(token: string) { '.' !in token }

  lemma SplitTokens(s: string)
    ensures forall i :: 0 <= i < |Split(s)| ==> NoDot(Split(s)[i])
    ensures Join(Split(s)) == s
  {
    TokensHaveNoDots(s);
    JoinSplit(s);
  }

  lemma {:induction false} TokensHaveNoDots(s: string)
    ensures forall i :: 0 <= i < |Split(s)| ==> NoDot(Split(s)[i])
  {
    if |s| > 0 {
      TokensHaveNoDots(s[1..]);
    }
  }

  lemma {:induction false} JoinSplit(s: string)
    ensures Join(Split(s)) == s
  {
    if |s| > 0 {
      var rest := Split(s[1..]);
      JoinSplit(s[1..]);
      assert s == [s[0]] + s[1..];
      if s[0] == '.' {
        assert Split(s)[1..] == rest;
      } else if |rest| > 1 {
        assert Split(s)[1..] == rest[1..];
      }
    }
  }

  lemma {:induction false} SplitToken(token: string)
    requires NoDot(token)
    ensures Split(token) == [token]
  {
    if |token| > 0 {
      SplitToken(token[1..]);
      assert token == [token[0]] + token[1..];
    }
  }

  lemma {:induction false} SplitFirst(token: string, rest: string)
    requires NoDot(token)
    ensures Split(token + "." + rest) == [token] + Split(rest)
    decreases |token|
  {
    var s := token + "." + rest;
    if |token| == 0 {
      assert s[1..] == rest;
    } else {
      SplitFirst(token[1..], rest);
      assert s[1..] == token[1..] + "." + rest;
      assert token == [token[0]] + token[1..];
    }
  }

  lemma {:induction false} SplitJoin(tokens: Tokens)
    requires |tokens| > 0 && forall i :: 0 <= i < |tokens| ==> NoDot(tokens[i])
    ensures Split(Join(tokens)) == tokens
  {
    if |tokens| == 1 {
      SplitToken(tokens[0]);
    } else {
      SplitJoin(tokens[1..]);
      SplitFirst(tokens[0], Join(tokens[1..]));
    }
  }

  function ToLower(s: string): (r: string)
    ensures |r| == |s|
  {
    seq(|s|, i requires 0 <= i < |s| => if 'A' <= s[i] <= 'Z' then s[i] - 'A' + 'a' else s[i])
  }

  /** Equality up to letter case. */
  predicate EqualFold(a: string, b: string) { ToLower(a) == ToLower(b) }

  /** Names are equal up to letter case exactly if they differ only where both have the same letter. */
  lemma FoldsExactly(a: string, b: string)
    ensures EqualFold(a, b) <==> |a| == |b| && forall i :: 0 <= i < |a| ==> SameLetter(a[i], b[i])
  {
    if EqualFold(a, b) {
      forall i | 0 <= i < |a| ensures SameLetter(a[i], b[i]) {
        assert ToLower(a)[i] == ToLower(b)[i];
      }
    }
  }

  predicate SameLetter(c: char, d: char) {
    || c == d
    || ('A' <= c <= 'Z' && 'a' <= d <= 'z' && c as int - 'A' as int == d as int - 'a' as int)
    || ('a' <= c <= 'z' && 'A' <= d <= 'Z' && c as int - 'a' as int == d as int - 'A' as int)
  }
}
