/** The placeholder rewriting of internal/server/store/db.go.

    Queries are written with '?' and, for Postgres, rewritten to $1, $2, ...  A query's
    meaning is the sequence of literal characters and argument positions the driver sees:
    one reader takes every '?' as the next argument, the other takes '$' with the longest
    run of digits after it as that argument. */
module Rebind {
  import opened Decimal

  datatype Dialect = Postgres | SQLite

  datatype Piece = Lit(c: char) | Param(index: nat)

  /** The reading of a '?' query of which n placeholders have gone by. */
  function ReadQuestions(q: string, n: nat): seq<Piece> {
    if q == "" then []
    else if q[0] == '?' then [Param(n + 1)] + ReadQuestions(q[1..], n + 1)
    else [Lit(q[0])] + ReadQuestions(q[1..], n)
  }

  /** How many digits s starts with. */
  function DigitRun(s: string): (k: nat)
    ensures k <= |s| && AllDigits(s[..k])
    ensures k < |s| ==> !IsDigit(s[k])
  {
    if s == "" || !IsDigit(s[0]) then 0
    else
      var k := 1 + DigitRun(s[1..]);
      assert forall i :: 1 <= i < k ==> s[..k][i] == s[1..][..k - 1][i - 1];
      k
  }

  /** The reading of a '$n' query, longest match. */
  function ReadDollars(s: string): seq<Piece>
    decreases |s|
  {
    if s == "" then []
    else
      var k := DigitRun(s[1..]);
      if s[0] == '$' && k > 0 then [Param(Atoi(s[1..][..k]))] + ReadDollars(s[1..][k..])
      else [Lit(s[0])] + ReadDollars(s[1..])
  }

  /** What the rewriting produces from q when n placeholders have gone by. */
  function Numbered(q: string, n: nat): string {
    if q == "" then ""
    else if q[0] == '?' then "$" + Itoa(n + 1) + Numbered(q[1..], n + 1)
    else [q[0]] + Numbered(q[1..], n)
  }

  /** Byte by byte with a counter and a builder, as the store does it. */
  method Rebind(dialect: Dialect, q: string) returns (r: string)
    ensures r == if dialect.Postgres? then Numbered(q, 0) else q
  {
    if dialect != Postgres {
      return q;
    }
    r := "";
    var n := 0;
    var i := 0;
    while i < |q|
      invariant 0 <= i <= |q|
      invariant r + Numbered(q[i..], n) == Numbered(q, 0)
    {
      assert q[i..][1..] == q[i + 1..];
      if q[i] == '?' {
        n := n + 1;
        assert r + Numbered(q[i..], n - 1) == r + "$" + Itoa(n) + Numbered(q[i + 1..], n);
        r := r + "$" + Itoa(n);
      } else {
        assert r + Numbered(q[i..], n) == r + [q[i]] + Numbered(q[i + 1..], n);
        r := r + [q[i]];
      }
      i := i + 1;
    }
  }

  // ---------------------------------------------------------------- meaning

  /** No '$' and no '?' has a digit right after it. */
  predicate Unambiguous(q: string) {
    forall i :: 0 <= i < |q| - 1 && (q[i] == '?' || q[i] == '$') ==> !IsDigit(q[i + 1])
  }

  lemma {:induction false} DigitRunConcat(a: string, b: string)
    requires AllDigits(a)
    ensures DigitRun(a + b) == |a| + DigitRun(b)
  {
    if a == "" {
      assert a + b == b;
    } else {
      assert (a + b)[1..] == a[1..] + b;
      DigitRunConcat(a[1..], b);
    }
  }

  /** The rewriting copies leading digits. */
  lemma {:induction false} NumberedDigits(q: string, n: nat)
    ensures DigitRun(Numbered(q, n)) == DigitRun(q)
    ensures Numbered(q, n)[DigitRun(q)..] == Numbered(q[DigitRun(q)..], n)
  {
    if q != "" && IsDigit(q[0]) {
      NumberedDigits(q[1..], n);
      assert Numbered(q, n)[1..] == Numbered(q[1..], n);
      assert q[DigitRun(q)..] == q[1..][DigitRun(q[1..])..];
      assert Numbered(q, n)[DigitRun(q)..] == Numbered(q, n)[1..][DigitRun(q[1..])..];
    } else if q != "" {
      assert Numbered(q, n)[0] == if q[0] == '?' then '$' else q[0];
      assert !IsDigit(Numbered(q, n)[0]);
      assert q[0..] == q;
      assert Numbered(q, n)[0..] == Numbered(q, n);
    } else {
      assert q[0..] == q;
    }
  }

  lemma {:induction false} ReadQuestionsLength(q: string, n: nat)
    ensures |ReadQuestions(q, n)| == |q|
  {
    if q != "" {
      ReadQuestionsLength(q[1..], if q[0] == '?' then n + 1 else n);
    }
  }

  lemma ReadPlaceholder(number: string, rest: string) returns (p: nat)
    requires number != "" && AllDigits(number)
    ensures ReadDollars("$" + number + rest) == [Param(p)] + ReadDollars(rest[DigitRun(rest)..])
    ensures DigitRun(rest) == 0 ==> p == Atoi(number)
  {
    var s, m := "$" + number + rest, |number| + DigitRun(rest);
    assert s[1..] == number + rest;
    assert DigitRun(s[1..]) == m by {
      DigitRunConcat(number, rest);
    }
    p := Atoi(s[1..][..m]);
    assert ReadDollars(s) == [Param(p)] + ReadDollars(s[1..][m..]);
    assert s[1..][m..] == rest[DigitRun(rest)..];
    if DigitRun(rest) == 0 {
      assert s[1..][..m] == number;
    }
  }

  /** A '?' becomes a placeholder that swallows the digits after it. */
  lemma ReadRewrittenQuestion(q: string, n: nat) returns (p: nat)
    requires q != "" && q[0] == '?'
    ensures ReadDollars(Numbered(q, n))
         == [Param(p)] + ReadDollars(Numbered(q[1..][DigitRun(q[1..])..], n + 1))
    ensures DigitRun(q[1..]) == 0 ==> p == n + 1
  {
    p := ReadPlaceholder(Itoa(n + 1), Numbered(q[1..], n + 1));
    NumberedDigits(q[1..], n + 1);
    AtoiOfItoa(n + 1);
  }

  /** So does a '$' that was already there. */
  lemma ReadKeptDollar(q: string, n: nat) returns (p: nat)
    requires q != "" && q[0] == '$' && DigitRun(q[1..]) > 0
    ensures ReadDollars(Numbered(q, n))
         == [Param(p)] + ReadDollars(Numbered(q[1..][DigitRun(q[1..])..], n))
  {
    var s := Numbered(q, n);
    assert s[1..] == Numbered(q[1..], n);
    NumberedDigits(q[1..], n);
    p := Atoi(s[1..][..DigitRun(q[1..])]);
  }

  lemma ReadKeptChar(q: string, n: nat)
    requires q != "" && q[0] != '?' && (q[0] == '$' ==> DigitRun(q[1..]) == 0)
    ensures ReadDollars(Numbered(q, n)) == [Lit(q[0])] + ReadDollars(Numbered(q[1..], n))
  {
    var s := Numbered(q, n);
    assert s[1..] == Numbered(q[1..], n);
    NumberedDigits(q[1..], n);
  }

  lemma {:induction false} CleanReading(q: string, n: nat)
    requires Unambiguous(q)
    ensures ReadDollars(Numbered(q, n)) == ReadQuestions(q, n)
  {
    if q != "" {
      var tail := q[1..];
      var k := DigitRun(tail);
      assert tail[0..] == tail;
      assert forall i {:trigger tail[i]} :: 0 <= i < |tail| ==> tail[i] == q[i + 1];
      assert k > 0 ==> IsDigit(tail[..k][0]);
      if q[0] == '?' {
        var _ := ReadRewrittenQuestion(q, n);
        CleanReading(tail, n + 1);
      } else {
        ReadKeptChar(q, n);
        CleanReading(tail, n);
      }
    }
  }

  /** Digits swallowed by a placeholder are lost from the reading. */
  lemma {:induction false} ReadingLength(q: string, n: nat)
    ensures |ReadDollars(Numbered(q, n))| <= |q|
    ensures !Unambiguous(q) ==> |ReadDollars(Numbered(q, n))| < |q|
    decreases |q|
  {
    if q != "" {
      var tail := q[1..];
      var k := DigitRun(tail);
      assert forall i {:trigger tail[i]} :: 0 <= i < |tail| ==> tail[i] == q[i + 1];
      assert tail[0..] == tail;
      if q[0] == '?' {
        var _ := ReadRewrittenQuestion(q, n);
        ReadingLength(tail[k..], n + 1);
      } else if q[0] == '$' && k > 0 {
        var _ := ReadKeptDollar(q, n);
        ReadingLength(tail[k..], n);
      } else {
        ReadKeptChar(q, n);
        ReadingLength(tail, n);
      }
      if k == 0 || (q[0] != '?' && q[0] != '$') {
        assert Unambiguous(tail) ==> Unambiguous(q) by {
          if Unambiguous(tail) {
            forall i | 0 <= i < |q| - 1 && (q[i] == '?' || q[i] == '$')
              ensures !IsDigit(q[i + 1])
            {
              if i > 0 {
                assert tail[i - 1] == q[i] && tail[i] == q[i + 1];
              } else {
                assert tail[0] == q[1];
              }
            }
          }
        }
      }
    }
  }

  /** The rewritten query reads as the original one exactly when no '$' or '?' is followed by a digit. */
  lemma RebindPreservesMeaningIff(q: string)
    ensures ReadDollars(Numbered(q, 0)) == ReadQuestions(q, 0) <==> Unambiguous(q)
  {
    if Unambiguous(q) {
      CleanReading(q, 0);
    } else {
      ReadingLength(q, 0);
      ReadQuestionsLength(q, 0);
    }
  }

  /** A digit after the placeholder is read as part of its number. */
  lemma DigitAfterPlaceholder()
    ensures ReadDollars(Numbered("?1", 0)) != ReadQuestions("?1", 0)
  {
    RebindPreservesMeaningIff("?1");
    assert !IsDigit("?1"[0]) && IsDigit("?1"[0 + 1]);
    assert !Unambiguous("?1");
  }

  // ---------------------------------------------------------------- binding arguments

  function Params(ps: seq<Piece>): seq<nat> {
    if ps == [] then []
    else (if ps[0].Param? then [ps[0].index] else []) + Params(ps[1..])
  }

  function Placeholders(q: string): nat {
    if q == "" then 0 else (if q[0] == '?' then 1 else 0) + Placeholders(q[1..])
  }

  /** ps holds the parameters from + 1, from + 2, ..., from + count, in that order. */
  ghost predicate Numbers(ps: seq<nat>, from: nat, count: nat) {
    |ps| == count && forall i :: 0 <= i < count ==> ps[i] == from + 1 + i
  }

  lemma {:induction false} ParamsAreNumbered(q: string, n: nat)
    ensures Numbers(Params(ReadQuestions(q, n)), n, Placeholders(q))
  {
    if q != "" {
      var m := if q[0] == '?' then n + 1 else n;
      ParamsAreNumbered(q[1..], m);
      assert ReadQuestions(q, n)[1..] == ReadQuestions(q[1..], m);
    }
  }

  /** The placeholders of a rewritten query are $1 to $N, in order, N being the number of '?'. */
  lemma NumberingIsConsecutive(q: string)
    requires Unambiguous(q)
    ensures Numbers(Params(ReadDollars(Numbered(q, 0))), 0, Placeholders(q))
  {
    CleanReading(q, 0);
    ParamsAreNumbered(q, 0);
  }

  // ---------------------------------------------------------------- ListTeamsForUser

  /** The query ListTeamsForUser builds from its three fixed texts; status is "" for every status. */
  function TeamsQuery(select: string, filter: string, order: string, status: string): string {
    if status == "" then select + "?" + order else select + "?" + filter + "?" + order
  }

  function TeamsArguments(userId: string, status: string): seq<string> {
    [userId] + (if status != "" then [status] else [])
  }

  /** Fixed text: no placeholder, no '$', and it goes on with a blank. */
  predicate FixedText(s: string) {
    s != "" && s[0] == ' ' && forall i :: 0 <= i < |s| ==> s[i] != '?' && s[i] != '$'
  }

  lemma {:induction false} FixedTextReads(s: string, rest: string)
    requires forall i :: 0 <= i < |s| ==> s[i] != '?' && s[i] != '$'
    ensures Placeholders(s + rest) == Placeholders(rest)
    ensures Unambiguous(rest) ==> Unambiguous(s + rest)
  {
    if s == "" {
      assert s + rest == rest;
    } else {
      assert (s + rest)[1..] == s[1..] + rest;
      FixedTextReads(s[1..], rest);
    }
  }

  lemma PlaceholderReads(rest: string)
    requires rest != "" && rest[0] == ' '
    ensures Placeholders("?" + rest) == 1 + Placeholders(rest)
    ensures Unambiguous(rest) ==> Unambiguous("?" + rest)
  {
    assert ("?" + rest)[1..] == rest;
  }

  /** In both shapes the rewritten query reads $1 to $N, N being the number of arguments passed. */
  lemma TeamsQueryBinds(select: string, filter: string, order: string, userId: string, status: string)
    requires FixedText(" " + select) && FixedText(filter) && FixedText(order)
    ensures var q := TeamsQuery(select, filter, order, status);
      Numbers(Params(ReadDollars(Numbered(q, 0))), 0, |TeamsArguments(userId, status)|)
  {
    var q := TeamsQuery(select, filter, order, status);
    var tail := order;
    assert order + "" == order;
    FixedTextReads(order, "");
    if status != "" {
      PlaceholderReads(order);
      tail := filter + ("?" + order);
      FixedTextReads(filter, "?" + order);
    }
    PlaceholderReads(tail);
    assert forall i :: 0 <= i < |select| ==> (" " + select)[i + 1] == select[i];
    FixedTextReads(select, "?" + tail);
    assert q == select + ("?" + tail);
    NumberingIsConsecutive(q);
  }
}
