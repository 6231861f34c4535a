/** Placeholder translation between the two SQL dialects. */
module Rebind {
  import opened Digits

  /** strconv.Itoa of a natural number. */
  function Itoa(n: nat): (s: string)
    ensures s != "" && AllDigits(s)
  {
    if n < 10 then [Digit(n)] else Itoa(n / 10) + [Digit(n % 10)]
  }

  /** The numeral denotes the number, and has no leading zero. */
  lemma {:induction false} ItoaDenotes(n: nat)
    ensures Decimal(Itoa(n)) == n && (n > 0 ==> Itoa(n)[0] != '0') && (n == 0 ==> Itoa(n) == "0")
  {
    if n >= 10 {
      ItoaDenotes(n / 10);
      assert Itoa(n)[..|Itoa(n)| - 1] == Itoa(n / 10);
    }
  }

  /** The translation of the rest of a query after n placeholders. */
  function Translated(q: string, n: nat): string {
    if q == "" then ""
    else if q[0] == '?' then "$" + Itoa(n + 1) + Translated(q[1..], n + 1)
    else [q[0]] + Translated(q[1..], n)
  }

  function Marks(q: string): nat {
    if q == "" then 0 else (if q[0] == '?' then 1 else 0) + Marks(q[1..])
  }

  method Rebind(dialect: string, query: string) returns (out: string)
    ensures out == if dialect != "postgres" then query else Translated(query, 0)
  {
    if dialect != "postgres" {
      return query;
    }
    out := "";
    var n := 0;
    for i := 0 to |query|
      invariant out + Translated(query[i..], n) == Translated(query, 0)
    {
      assert query[i..][1..] == query[i + 1..];
      if query[i] == '?' {
        n := n + 1;
        out := out + "$" + Itoa(n);
      } else {
        out := out + [query[i]];
      }
    }
    assert out + "" == out;
  }

  /** The second part of a query is numbered on from the first. */
  lemma {:induction false} TranslatedConcat(q: string, rest: string, n: nat)
    ensures Translated(q + rest, n) == Translated(q, n) + Translated(rest, n + Marks(q))
  {
    if q == "" {
      assert q + rest == rest;
    } else {
      assert (q + rest)[1..] == q[1..] + rest;
      var first := if q[0] == '?' then "$" + Itoa(n + 1) else [q[0]];
      var n' := if q[0] == '?' then n + 1 else n;
      TranslatedConcat(q[1..], rest, n');
      Regroup(first, Translated(q[1..], n'), Translated(rest, n + Marks(q)));
    }
  }

  lemma Regroup(a: string, b: string, c: string)
    ensures a + (b + c) == a + b + c
  {
  }

  /** The k-th placeholder becomes $k; what surrounds it is translated on its own. */
  lemma KthPlaceholder(before: string, after: string, n: nat)
    ensures var k := n + Marks(before) + 1;
            Translated(before + "?" + after, n) == Translated(before, n) + "$" + Itoa(k) + Translated(after, k)
  {
    var k := n + Marks(before) + 1;
    Regroup(before, "?", after);
    TranslatedConcat(before, "?" + after, n);
    assert ("?" + after)[1..] == after;
    Regroup(Translated(before, n), "$" + Itoa(k), Translated(after, k));
    Regroup(Translated(before, n), "$", Itoa(k));
  }

  // ------------------------------------------------------------------- way back

  function SkipDigits(s: string): string {
    if s != "" && IsDigit(s[0]) then SkipDigits(s[1..]) else s
  }

  /** Every $ followed by digits, read as a placeholder again. */
  function Restored(s: string): string
    decreases |s|
  {
    if s == "" then ""
    else if s[0] == '$' && |s| > 1 && IsDigit(s[1]) then
      SkipShrinks(s[1..]);
      "?" + Restored(SkipDigits(s[1..]))
    else [s[0]] + Restored(s[1..])
  }

  lemma {:induction false} SkipShrinks(s: string)
    ensures |SkipDigits(s)| <= |s|
    ensures s != "" && IsDigit(s[0]) ==> |SkipDigits(s)| < |s|
  {
    if s != "" && IsDigit(s[0]) {
      SkipShrinks(s[1..]);
    }
  }

  lemma {:induction false} SkipNumeral(d: string, r: string)
    requires AllDigits(d)
    ensures SkipDigits(d + r) == SkipDigits(r)
  {
    if d == "" {
      assert d + r == r;
    } else {
      assert (d + r)[1..] == d[1..] + r;
      SkipNumeral(d[1..], r);
    }
  }

  lemma {:induction false} SkipTranslated(q: string, n: nat)
    ensures SkipDigits(Translated(q, n)) == Translated(SkipDigits(q), n)
  {
    if q != "" && IsDigit(q[0]) {
      assert Translated(q, n)[1..] == Translated(q[1..], n);
      SkipTranslated(q[1..], n);
    }
  }

  /** No placeholder and no dollar sign of the query is followed by a digit. */
  ghost predicate IsUnambiguous(q: string) {
    forall i :: 0 <= i < |q| - 1 && (q[i] == '?' || q[i] == '$') ==> !IsDigit(q[i + 1])
  }

  lemma UnambiguousTail(q: string)
    requires q != ""
    ensures IsUnambiguous(q) <==>
            IsUnambiguous(q[1..]) && ((q[0] == '?' || q[0] == '$') && |q| > 1 ==> !IsDigit(q[1]))
  {
    if IsUnambiguous(q[1..]) && ((q[0] == '?' || q[0] == '$') && |q| > 1 ==> !IsDigit(q[1])) {
      forall i | 0 <= i < |q| - 1 && (q[i] == '?' || q[i] == '$')
        ensures !IsDigit(q[i + 1])
      {
        if i > 0 {
          assert q[1..][i - 1] == q[i] && q[1..][i] == q[i + 1];
        }
      }
    }
    if IsUnambiguous(q) {
      forall i | 0 <= i < |q[1..]| - 1 && (q[1..][i] == '?' || q[1..][i] == '$')
        ensures !IsDigit(q[1..][i + 1])
      {
        assert q[i + 1] == q[1..][i] && q[i + 2] == q[1..][i + 1];
      }
    }
  }

  lemma FirstOfTranslated(q: string, n: nat)
    ensures Translated(q, n) == "" <==> q == ""
    ensures q != "" ==> (IsDigit(Translated(q, n)[0]) <==> IsDigit(q[0]))
  {
  }

  /** Restoring a placeholder that stands first. */
  lemma RestoredMark(q: string, n: nat)
    requires q != "" && q[0] == '?'
    ensures Restored(Translated(q, n)) == "?" + Restored(Translated(SkipDigits(q[1..]), n + 1))
  {
    var d, r := Itoa(n + 1), Translated(q[1..], n + 1);
    RestoredNumeral(d, r, Translated(q, n));
    SkipTranslated(q[1..], n + 1);
  }

  lemma RestoredNumeral(d: string, r: string, s: string)
    requires d != "" && AllDigits(d) && s == "$" + d + r
    ensures Restored(s) == "?" + Restored(SkipDigits(r))
  {
    assert s[1..] == d + r && s[1] == d[0];
    SkipNumeral(d, r);
  }

  lemma RestoredOther(q: string, n: nat)
    requires q != "" && q[0] != '?'
    ensures Restored(Translated(q, n))
         == if q[0] == '$' && |q| > 1 && IsDigit(q[1]) then "?" + Restored(Translated(SkipDigits(q[1..]), n))
            else [q[0]] + Restored(Translated(q[1..], n))
  {
    var s := Translated(q, n);
    assert s[1..] == Translated(q[1..], n);
    FirstOfTranslated(q[1..], n);
    SkipTranslated(q[1..], n);
  }

  /** Translating and restoring never lengthens a query, and shortens every ambiguous one. */
  lemma {:induction false} RestoredLength(q: string, n: nat)
    ensures |Restored(Translated(q, n))| <= |q|
    ensures !IsUnambiguous(q) ==> |Restored(Translated(q, n))| < |q|
    decreases |q|
  {
    if q != "" {
      var rest := q[1..];
      UnambiguousTail(q);
      SkipShrinks(rest);
      if q[0] == '?' {
        RestoredMark(q, n);
        RestoredLength(SkipDigits(rest), n + 1);
      } else {
        RestoredOther(q, n);
        RestoredLength(SkipDigits(rest), n);
        RestoredLength(rest, n);
      }
    }
  }

  lemma {:induction false} RestoredUnambiguous(q: string, n: nat)
    requires IsUnambiguous(q)
    ensures Restored(Translated(q, n)) == q
  {
    if q != "" {
      var rest := q[1..];
      UnambiguousTail(q);
      assert q == [q[0]] + rest;
      if q[0] == '?' {
        assert SkipDigits(rest) == rest;
        RestoredMark(q, n);
        RestoredUnambiguous(rest, n + 1);
      } else {
        RestoredOther(q, n);
        RestoredUnambiguous(rest, n);
      }
    }
  }

  /** The query can be recovered from its translation exactly if no placeholder and no dollar
      sign in it is followed by a digit. */
  lemma RebindIsReversible(q: string)
    ensures Restored(Translated(q, 0)) == q <==> IsUnambiguous(q)
  {
    RestoredLength(q, 0);
    if IsUnambiguous(q) {
      RestoredUnambiguous(q, 0);
    }
  }
}
