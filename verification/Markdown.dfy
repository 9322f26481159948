/** Escaping markdown symbols with a backslash, by one replacing pass over the whole text for every symbol. */
module Markdown {
  import opened Sequences

  const MARKDOWN_SYMBOLS: string := "*_`["

  const BACKSLASH: char := '\\'

  /** strings.ReplaceAll(s, v, "\\" + v) for a symbol of one character. */
  function Pass(s: string, v: char): string {
    if s == "" then "" else (if s[0] == v then [BACKSLASH, v] else [s[0]]) + Pass(s[1..], v)
  }

  /** The passes for `symbols`, first to last. */
  function Passes(s: string, symbols: string): string {
    if symbols == "" then s else Pass(Passes(s, symbols[..|symbols| - 1]), symbols[|symbols| - 1])
  }

  /** One look at every character: a backslash before those in `symbols`. */
  function Escape(s: string, symbols: string): string {
    if s == "" then "" else (if s[0] in symbols then [BACKSLASH, s[0]] else [s[0]]) + Escape(s[1..], symbols)
  }

  /** Drops a backslash that is just before a symbol. */
  function Unescape(s: string, symbols: string): string
    decreases |s|
  {
    if s == "" then ""
    else if |s| > 1 && s[0] == BACKSLASH && s[1] in symbols then [s[1]] + Unescape(s[2..], symbols)
    else [s[0]] + Unescape(s[1..], symbols)
  }

  method ReplaceMarkdownSymbols(s: string) returns (r: string)
    ensures r == Escape(s, "*_`[")
    ensures Unescape(r, "*_`[") == s
  {
    r := s;
    var i := 0;
    while i < |MARKDOWN_SYMBOLS|
      invariant 0 <= i <= |MARKDOWN_SYMBOLS|
      invariant r == Passes(s, MARKDOWN_SYMBOLS[..i])
    {
      assert MARKDOWN_SYMBOLS[..i + 1][..i] == MARKDOWN_SYMBOLS[..i];
      r := Pass(r, MARKDOWN_SYMBOLS[i]);
      i := i + 1;
    }
    assert MARKDOWN_SYMBOLS[..i] == MARKDOWN_SYMBOLS;
    PassesAreOneIff(MARKDOWN_SYMBOLS);
    assert Passes(s, MARKDOWN_SYMBOLS) == Escape(s, MARKDOWN_SYMBOLS);
    UnescapeOfEscape(s, MARKDOWN_SYMBOLS);
  }

  lemma {:induction false} PassConcat(a: string, b: string, v: char)
    ensures Pass(a + b, v) == Pass(a, v) + Pass(b, v)
  {
    if a == "" {
      assert a + b == b;
    } else {
      PassConcat(a[1..], b, v);
      assert (a + b)[1..] == a[1..] + b;
      var head := if a[0] == v then [BACKSLASH, v] else [a[0]];
      Associates(head, Pass(a[1..], v), Pass(b, v));
    }
  }

  /** No symbol comes twice, and a backslash only as the first. */
  predicate Independent(symbols: string) {
    && (forall i, j | 0 <= i < j < |symbols| :: symbols[i] != symbols[j])
    && (forall j | 0 < j < |symbols| :: symbols[j] != BACKSLASH)
  }

  lemma {:induction false} PassOfEscape(s: string, symbols: string, v: char)
    requires v !in symbols && (symbols == "" || v != BACKSLASH)
    ensures Pass(Escape(s, symbols), v) == Escape(s, symbols + [v])
  {
    if s != "" {
      PassOfEscape(s[1..], symbols, v);
      var head := if s[0] in symbols then [BACKSLASH, s[0]] else [s[0]];
      PassConcat(head, Escape(s[1..], symbols), v);
      PassOfHead(s[0], symbols, v);
    }
  }

  lemma PassOfHead(c: char, symbols: string, v: char)
    requires v !in symbols && (symbols == "" || v != BACKSLASH)
    ensures Pass(if c in symbols then [BACKSLASH, c] else [c], v)
         == if c in symbols + [v] then [BACKSLASH, c] else [c]
  {
    assert Pass([c], v) == (if c == v then [BACKSLASH, v] else [c]) + Pass([c][1..], v);
    if c in symbols {
      assert [BACKSLASH, c][1..] == [c];
    }
  }

  lemma PrefixIndependent(symbols: string, n: nat)
    requires Independent(symbols) && n < |symbols|
    ensures Independent(symbols[..n]) && symbols[n] !in symbols[..n]
  {
    var prefix := symbols[..n];
    assert forall i | 0 <= i < n :: prefix[i] == symbols[i];
  }

  lemma {:induction false} IndependentPasses(s: string, symbols: string)
    requires Independent(symbols)
    ensures Passes(s, symbols) == Escape(s, symbols)
  {
    if symbols == "" {
      NothingToEscape(s);
    } else {
      var n := |symbols| - 1;
      PrefixIndependent(symbols, n);
      IndependentPasses(s, symbols[..n]);
      PassOfEscape(s, symbols[..n], symbols[n]);
      assert symbols == symbols[..n] + [symbols[n]];
    }
  }

  lemma {:induction false} NothingToEscape(s: string)
    ensures Escape(s, "") == s
  {
    if s != "" {
      NothingToEscape(s[1..]);
    }
  }

  lemma {:induction false} PassGrows(s: string, v: char)
    ensures |Pass(s, v)| >= |s| + if v in s then 1 else 0
    ensures forall c | c in s :: c in Pass(s, v)
    ensures v in s ==> BACKSLASH in Pass(s, v)
  {
    if s != "" {
      PassGrows(s[1..], v);
    }
  }

  lemma {:induction false} PassesGrow(s: string, symbols: string, k: nat)
    requires k <= |symbols|
    ensures |Passes(s, symbols)| >= |Passes(s, symbols[..k])|
    ensures forall c | c in Passes(s, symbols[..k]) :: c in Passes(s, symbols)
    decreases |symbols|
  {
    var n := |symbols|;
    if k < n {
      PassesGrow(s, symbols[..n - 1], k);
      assert symbols[..n - 1][..k] == symbols[..k];
      PassGrows(Passes(s, symbols[..n - 1]), symbols[n - 1]);
    } else {
      assert symbols[..k] == symbols;
    }
  }

  /** One pass more, as a prefix grows. */
  lemma NextPass(s: string, symbols: string, k: nat)
    requires k < |symbols|
    ensures Passes(s, symbols[..k + 1]) == Pass(Passes(s, symbols[..k]), symbols[k])
  {
    assert symbols[..k + 1][..k] == symbols[..k];
  }

  lemma DependentPasses(symbols: string, i: nat, j: nat)
    requires i < j < |symbols| && (symbols[j] == symbols[i] || symbols[j] == BACKSLASH)
    ensures |Passes([symbols[i]], symbols)| > |Escape([symbols[i]], symbols)|
  {
    var u := symbols[i];
    assert Passes([u], "") == [u] && Escape([u], symbols) == [BACKSLASH, u] + Escape([u][1..], symbols);
    assert |Escape([u], symbols)| == 2;
    hide Pass, Passes, Escape;
    PassesGrow([u], symbols[..i], 0);
    assert symbols[..i][..0] == "";
    NextPass([u], symbols, i);
    PassGrows(Passes([u], symbols[..i]), u);
    PassesGrow([u], symbols[..j], i + 1);
    assert symbols[..j][..i + 1] == symbols[..i + 1];
    NextPass([u], symbols, j);
    PassGrows(Passes([u], symbols[..j]), symbols[j]);
    PassesGrow([u], symbols, j + 1);
  }

  /** For which lists of symbols the passes, one after the other, are the same as one look at every character. */
  lemma PassesAreOneIff(symbols: string)
    ensures (forall s :: Passes(s, symbols) == Escape(s, symbols)) <==> Independent(symbols)
  {
    if Independent(symbols) {
      forall s ensures Passes(s, symbols) == Escape(s, symbols) {
        IndependentPasses(s, symbols);
      }
    } else {
      var i := 0;
      if j :| 0 < j < |symbols| && symbols[j] == BACKSLASH {
        DependentPasses(symbols, 0, j);
      } else {
        var a, b :| 0 <= a < b < |symbols| && symbols[a] == symbols[b];
        i := a;
        DependentPasses(symbols, a, b);
      }
      assert Passes([symbols[i]], symbols) != Escape([symbols[i]], symbols);
    }
  }

  /** The order of the passes does not matter. */
  lemma PassesInAnyOrder(s: string, symbols: string, shuffled: string)
    requires Independent(symbols) && Independent(shuffled)
    requires forall c :: c in symbols <==> c in shuffled
    ensures Passes(s, symbols) == Passes(s, shuffled)
  {
    IndependentPasses(s, symbols);
    IndependentPasses(s, shuffled);
    SameSymbols(s, symbols, shuffled);
  }

  lemma {:induction false} SameSymbols(s: string, symbols: string, shuffled: string)
    requires forall c :: c in symbols <==> c in shuffled
    ensures Escape(s, symbols) == Escape(s, shuffled)
  {
    if s != "" {
      SameSymbols(s[1..], symbols, shuffled);
    }
  }

  /** The input comes back, backslashes of its own included. */
  lemma {:induction false} UnescapeOfEscape(s: string, symbols: string)
    requires BACKSLASH !in symbols
    ensures Unescape(Escape(s, symbols), symbols) == s
    ensures s != "" ==> Escape(s, symbols) != "" && Escape(s, symbols)[0] !in symbols
  {
    if s != "" {
      UnescapeOfEscape(s[1..], symbols);
      var rest := Escape(s[1..], symbols);
      if s[0] in symbols {
        assert Escape(s, symbols)[2..] == rest;
      } else {
        assert Escape(s, symbols)[1..] == rest;
      }
    }
  }

  lemma EscapeIsInjective(s: string, t: string, symbols: string)
    requires BACKSLASH !in symbols && Escape(s, symbols) == Escape(t, symbols)
    ensures s == t
  {
    UnescapeOfEscape(s, symbols);
    UnescapeOfEscape(t, symbols);
  }
}
