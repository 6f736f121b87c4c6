/** Hiding secrets in texts: the quoting of secrets for Python commands, and the masking that undoes it. */
module Masking {
  import opened Text

  const PLACEHOLDER := "*****"
  const LITERAL_NEWLINE := "\\n"

  function StripQuotesLeft(s: string): string {
    if s != [] && s[0] == '"' then StripQuotesLeft(s[1..]) else s
  }

  function StripQuotesRight(s: string): string {
    if s != [] && s[|s| - 1] == '"' then StripQuotesRight(s[..|s| - 1]) else s
  }

  /** A secret as it stands in the code of a Python command. */
  function Quoted(secret: string): string {
    Replace("\"" + secret + "\"", "\n", LITERAL_NEWLINE)
  }

  /** What the masking looks for, given a listed value. */
  function Pattern(keyValue: string): string {
    Replace(StripQuotesRight(StripQuotesLeft(keyValue)), LITERAL_NEWLINE, "\n")
  }

  predicate OuterQuote(s: string) {
    s != [] && (s[0] == '"' || s[|s| - 1] == '"')
  }

  // --- Quoting and its inverse -----------------------------------------------------------------

  // Escaping and unescaping line ends gives back the secret, if it had no literal backslash and n.
  lemma {:induction false} UnescapeEscaped(s: string)
    requires !Contains(s, LITERAL_NEWLINE)
    ensures Replace(Replace(s, "\n", LITERAL_NEWLINE), LITERAL_NEWLINE, "\n") == s
  {
    if s != [] {
      assert forall i :: At(s[1..], i, LITERAL_NEWLINE) ==> At(s, i + 1, LITERAL_NEWLINE) by {
        assert forall i :: 0 <= i <= |s[1..]| ==> s[1..][i..] == s[i + 1..];
      }
      UnescapeEscaped(s[1..]);
      var rest := Replace(s[1..], "\n", LITERAL_NEWLINE);
      if s[0] == '\n' {
        assert "\n" <= s;
        ReplaceFirst(rest, LITERAL_NEWLINE, "\n");
      } else {
        assert !("\n" <= s);
        assert rest != [] && rest[0] == 'n' ==> s[1..] != [] && s[1] == 'n';
        assert s[0] == '\\' && s[1..] != [] && s[1] == 'n' ==> At(s, 0, LITERAL_NEWLINE);
        assert ([s[0]] + rest)[1..] == rest;
      }
    }
  }

  // What an unescaped text cannot have: a literal line end, or an outer quote of its own.
  lemma {:induction false} UnescapedIsClean(x: string)
    ensures !Contains(Replace(x, LITERAL_NEWLINE, "\n"), LITERAL_NEWLINE)
    ensures !OuterQuote(x) ==> !OuterQuote(Replace(x, LITERAL_NEWLINE, "\n"))
    ensures var r := Replace(x, LITERAL_NEWLINE, "\n"); x != [] && x[|x| - 1] != '"' ==> r != [] && r[|r| - 1] != '"'
    decreases |x|
  {
    var r := Replace(x, LITERAL_NEWLINE, "\n");
    if x == [] {
    } else if LITERAL_NEWLINE <= x {
      UnescapedIsClean(x[2..]);
      CleanAfter('\n', Replace(x[2..], LITERAL_NEWLINE, "\n"));
    } else {
      UnescapedIsClean(x[1..]);
      var rest := Replace(x[1..], LITERAL_NEWLINE, "\n");
      assert x[0] == '\\' && rest != [] && rest[0] == 'n' ==> LITERAL_NEWLINE <= x;
      CleanAfter(x[0], rest);
    }
  }

  lemma CleanAfter(c: char, rest: string)
    requires !Contains(rest, LITERAL_NEWLINE) && !(c == '\\' && rest != [] && rest[0] == 'n')
    ensures !Contains([c] + rest, LITERAL_NEWLINE)
  {
    forall i
      ensures !At([c] + rest, i, LITERAL_NEWLINE)
    {
      AtChars([c] + rest, i, LITERAL_NEWLINE);
      assert LITERAL_NEWLINE[0] == '\\' && LITERAL_NEWLINE[1] == 'n';
      if i > 0 {
        AtShifts([c], rest, i, LITERAL_NEWLINE);
      }
    }
  }

  lemma {:induction false} StrippedLeft(s: string)
    ensures var r := StripQuotesLeft(s); (r != [] ==> r[0] != '"' && r[|r| - 1] == s[|s| - 1]) && |r| <= |s|
  {
    if s != [] && s[0] == '"' {
      StrippedLeft(s[1..]);
    }
  }

  lemma {:induction false} StrippedRight(s: string)
    ensures var r := StripQuotesRight(s); r <= s && (r != [] ==> r[|r| - 1] != '"')
  {
    if s != [] && s[|s| - 1] == '"' {
      StrippedRight(s[..|s| - 1]);
    }
  }

  lemma PatternIsClean(keyValue: string)
    ensures !Contains(Pattern(keyValue), LITERAL_NEWLINE) && !OuterQuote(Pattern(keyValue))
  {
    StrippedLeft(keyValue);
    StrippedRight(StripQuotesLeft(keyValue));
    UnescapedIsClean(StripQuotesRight(StripQuotesLeft(keyValue)));
  }

  // Only the two quotes around a text without outer quotes go.
  lemma StripAround(e: string)
    requires !OuterQuote(e)
    ensures StripQuotesRight(StripQuotesLeft("\"" + e + "\"")) == e
  {
    var q := "\"" + e + "\"";
    assert q[1..] == e + "\"";
    if e == [] {
      assert StripQuotesLeft("\"") == [];
    } else {
      assert StripQuotesLeft(e + "\"") == e + "\"";
      assert (e + "\"")[..|e|] == e;
    }
  }

  lemma {:induction false} EscapedEnds(s: string)
    requires s != []
    ensures var e := Replace(s, "\n", LITERAL_NEWLINE);
            e != [] && (e[0] == '"' <==> s[0] == '"') && (e[|e| - 1] == '"' <==> s[|s| - 1] == '"')
  {
    if |s| > 1 {
      EscapedEnds(s[1..]);
    }
  }

  lemma EscapedQuotes(s: string)
    ensures Quoted(s) == "\"" + Replace(s, "\n", LITERAL_NEWLINE) + "\""
  {
    EscapedThen("\"" + s, "\"");
    EscapedThen("\"", s);
    OtherUnescaped('"');
  }

  lemma OtherUnescaped(c: char)
    requires c != '\n'
    ensures Replace([c], "\n", LITERAL_NEWLINE) == [c]
  {
    assert "\n"[0] == '\n' && [c][0] == c && [c][1..] == [];
  }

  lemma {:induction false} EscapedThen(a: string, b: string)
    ensures Replace(a + b, "\n", LITERAL_NEWLINE)
            == Replace(a, "\n", LITERAL_NEWLINE) + Replace(b, "\n", LITERAL_NEWLINE)
  {
    if a == [] {
      assert a + b == b;
    } else {
      assert (a + b)[1..] == a[1..] + b;
      EscapedThen(a[1..], b);
    }
  }

  /** Main result: the masking looks for exactly the secret that was quoted, if and only if the secret has no outer
      quote and no literal backslash and n. */
  lemma QuotingInverted(secret: string)
    ensures Pattern(Quoted(secret)) == secret <==> !OuterQuote(secret) && !Contains(secret, LITERAL_NEWLINE)
  {
    PatternIsClean(Quoted(secret));
    if !OuterQuote(secret) && !Contains(secret, LITERAL_NEWLINE) {
      EscapedQuotes(secret);
      if secret != [] {
        EscapedEnds(secret);
      }
      StripAround(Replace(secret, "\n", LITERAL_NEWLINE));
      UnescapeEscaped(secret);
    }
  }

  // The same holds for a secret listed as it is.
  lemma PlainInverted(secret: string)
    ensures Pattern(secret) == secret <==> !OuterQuote(secret) && !Contains(secret, LITERAL_NEWLINE)
  {
    PatternIsClean(secret);
    if !OuterQuote(secret) && !Contains(secret, LITERAL_NEWLINE) {
      ReplaceNothing(secret, LITERAL_NEWLINE, "\n");
    }
  }

  // --- Masking -----------------------------------------------------------------------------------

  function Masked(code: string, keyValues: seq<string>): string
    decreases |keyValues|
  {
    if keyValues == [] then code else Masked(Replace(code, Pattern(keyValues[0]), PLACEHOLDER), keyValues[1..])
  }

  // What starts a masked text and has no asterisk started the text.
  lemma {:induction false} StartKept(s: string, p: string, q: string)
    requires '*' !in q && q <= Replace(s, p, PLACEHOLDER)
    ensures q <= s && (p == [] ==> q == [])
  {
    if q != [] {
      assert q[0] in q;
      if s != [] && !(p <= s) {
        assert q[1..] <= Replace(s[1..], p, PLACEHOLDER);
        StartKept(s[1..], p, q[1..]);
      }
    }
  }

  // Masking brings in no text without an asterisk, and removes what it looks for.
  lemma {:induction false} OccurrenceKept(s: string, p: string, q: string, i: int)
    requires q != [] && '*' !in q && At(Replace(s, p, PLACEHOLDER), i, q)
    ensures Contains(s, q) && p != q
    decreases |s|
  {
    AtChars(Replace(s, p, PLACEHOLDER), i, q);
    if p == [] {
      OccurrenceSpread(s, q, i);
    } else if p <= s {
      assert q[0] in q;
      AtShifts(PLACEHOLDER, Replace(s[|p|..], p, PLACEHOLDER), i, q);
      OccurrenceKept(s[|p|..], p, q, i - |PLACEHOLDER|);
      ContainsLater(s, |p|, q);
    } else if i == 0 {
      StartKept(s, p, q);
      assert s[0..] == s && At(s, 0, q);
    } else {
      AtShifts([s[0]], Replace(s[1..], p, PLACEHOLDER), i, q);
      OccurrenceKept(s[1..], p, q, i - 1);
      ContainsLater(s, 1, q);
    }
  }

  // The empty text stands before every character.
  lemma {:induction false} OccurrenceSpread(s: string, q: string, i: int)
    requires q != [] && '*' !in q && At(Replace(s, [], PLACEHOLDER), i, q)
    ensures Contains(s, q)
    decreases |s|
  {
    AtChars(Replace(s, [], PLACEHOLDER), i, q);
    assert q[0] in q;
    if s != [] {
      var rest := Replace(s[1..], [], PLACEHOLDER);
      var n := |PLACEHOLDER|;
      assert Replace(s, [], PLACEHOLDER) == (PLACEHOLDER + [s[0]]) + rest;
      if i == n {
        assert Replace(s, [], PLACEHOLDER)[n..] == [s[0]] + rest;
        StartKept(s[1..], [], q[1..]);
        assert At(s, 0, q);
      } else if i > n {
        AtShifts(PLACEHOLDER + [s[0]], rest, i, q);
        OccurrenceSpread(s[1..], q, i - n - 1);
        ContainsLater(s, 1, q);
      }
    }
  }

  lemma ContainsLater(s: string, n: nat, q: string)
    requires n <= |s| && Contains(s[n..], q)
    ensures Contains(s, q)
  {
    var j :| At(s[n..], j, q);
    assert s[n..][j..] == s[n + j..];
    assert At(s, n + j, q);
  }

  lemma {:induction false} StaysAbsent(code: string, keyValues: seq<string>, q: string)
    requires q != [] && '*' !in q && !Contains(code, q)
    ensures !Contains(Masked(code, keyValues), q)
    decreases |keyValues|
  {
    if keyValues != [] {
      var next := Replace(code, Pattern(keyValues[0]), PLACEHOLDER);
      forall i
        ensures !At(next, i, q)
      {
        if At(next, i, q) {
          OccurrenceKept(code, Pattern(keyValues[0]), q, i);
        }
      }
      StaysAbsent(next, keyValues[1..], q);
    }
  }

  lemma {:induction false} MaskedHidesAll(code: string, keyValues: seq<string>, k: string)
    requires k in keyValues && Pattern(k) != [] && '*' !in Pattern(k)
    ensures !Contains(Masked(code, keyValues), Pattern(k))
    decreases |keyValues|
  {
    var next := Replace(code, Pattern(keyValues[0]), PLACEHOLDER);
    if k == keyValues[0] {
      forall i
        ensures !At(next, i, Pattern(k))
      {
        if At(next, i, Pattern(k)) {
          OccurrenceKept(code, Pattern(k), Pattern(k), i);
        }
      }
      StaysAbsent(next, keyValues[1..], Pattern(k));
    } else {
      MaskedHidesAll(next, keyValues[1..], k);
    }
  }

  /** Main result: a masked text holds no listed secret without asterisks, whatever else is listed and in whatever
      order; and a text that held no secret is left alone. */
  method ReplaceWithSpoiler(code: string, keyValues: seq<string>) returns (masked: string)
    ensures masked == Masked(code, keyValues)
    ensures forall k :: k in keyValues && Pattern(k) != [] && '*' !in Pattern(k) ==> !Contains(masked, Pattern(k))
    ensures (forall k :: k in keyValues ==> Pattern(k) != [] && !Contains(code, Pattern(k))) ==> masked == code
  {
    masked := code;
    for n := 0 to |keyValues|
      invariant Masked(code, keyValues) == Masked(masked, keyValues[n..])
      invariant (forall k :: k in keyValues ==> Pattern(k) != [] && !Contains(code, Pattern(k))) ==> masked == code
    {
      var keyValue := StripQuotesRight(StripQuotesLeft(keyValues[n]));
      keyValue := Replace(keyValue, LITERAL_NEWLINE, "\n");
      assert keyValue == Pattern(keyValues[n]);
      if keyValue != [] && !Contains(masked, keyValue) {
        ReplaceNothing(masked, keyValue, PLACEHOLDER);
      }
      masked := Replace(masked, keyValue, PLACEHOLDER);
    }
    forall k | k in keyValues && Pattern(k) != [] && '*' !in Pattern(k)
      ensures !Contains(masked, Pattern(k))
    {
      MaskedHidesAll(code, keyValues, k);
    }
  }

  /** Where a secret stood there are five asterisks, and the text around it stays. */
  lemma SecretBecomesStars(a: string, keyValue: string, b: string)
    requires Pattern(keyValue) != [] && !Contains(b, Pattern(keyValue))
    requires forall i :: 0 <= i < |a| ==> !At(a + (Pattern(keyValue) + b), i, Pattern(keyValue))
    ensures Masked(a + (Pattern(keyValue) + b), [keyValue]) == a + "*****" + b
  {
    ReplaceAfter(a, Pattern(keyValue), b, PLACEHOLDER);
    ReplaceNothing(b, Pattern(keyValue), PLACEHOLDER);
    assert [keyValue][1..] == [];
  }
}
