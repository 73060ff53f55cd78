/** Page and limit parameters: bounded decimal parsing and the offset they give. */
module Pagination {
  const MAX_PAGE := 1_000_000

  datatype Params = Params(page: int, limit: int)
  {
    function Offset(): int { (page - 1) * limit }
  }

  predicate IsDigit(c: char) { '0' <= c <= '9' }

  predicate AllDigits(s: string) { forall i :: 0 <= i < |s| ==> IsDigit(s[i]) }

  /** The number a decimal numeral stands for. */
  function Decimal(s: string): nat
    requires AllDigits(s)
  {
    if s == "" then 0 else Decimal(s[..|s| - 1]) * 10 + (s[|s| - 1] as int - '0' as int)
  }

  /** A numeral stands for at least what each of its prefixes stands for. */
  lemma {:induction false} PrefixIsSmaller(s: string, i: nat)
    requires AllDigits(s) && i <= |s|
    ensures Decimal(s[..i]) <= Decimal(s)
  {
    if i < |s| {
      assert s[..|s| - 1][..i] == s[..i];
      PrefixIsSmaller(s[..|s| - 1], i);
    } else {
      assert s[..i] == s;
    }
  }

  /** The number if the string is a numeral of at most MAX_PAGE * 100, and 0 otherwise, however long
      the string. `peak` is the largest value that occurs on the way: it fits 32 bits. */
  method AtoiSafe(s: string) returns (n: int, ghost peak: int)
    ensures n == if AllDigits(s) && Decimal(s) <= MAX_PAGE * 100 then Decimal(s) else 0
    ensures 0 <= n <= peak <= 1_000_000_009
  {
    n, peak := 0, 0;
    for i := 0 to |s|
      invariant AllDigits(s[..i]) && n == Decimal(s[..i]) <= MAX_PAGE * 100
      invariant n <= peak <= 1_000_000_009
    {
      var c := s[i];
      if c < '0' || c > '9' {
        return 0, peak;
      }
      assert s[..i + 1][..i] == s[..i];
      n := n * 10 + (c as int - '0' as int);
      peak := if n > peak then n else peak;
      if n > MAX_PAGE * 100 {
        if AllDigits(s) {
          PrefixIsSmaller(s, i + 1);
        }
        return 0, peak;
      }
    }
    assert s[..|s|] == s;
  }

  /** The value AtoiSafe finds in a parameter; an absent parameter is the empty string. */
  function ValueOf(s: string): nat {
    if AllDigits(s) && Decimal(s) <= MAX_PAGE * 100 then Decimal(s) else 0
  }

  method Parse(pageArg: string, limitArg: string, defaultLimit: int) returns (p: Params)
    ensures p.page == if ValueOf(pageArg) == 0 then 1 else if ValueOf(pageArg) > MAX_PAGE then MAX_PAGE else ValueOf(pageArg)
    ensures p.limit == if 1 <= ValueOf(limitArg) <= 100 then ValueOf(limitArg) else defaultLimit
    ensures 1 <= p.page <= MAX_PAGE
    ensures 1 <= defaultLimit <= 100 ==> 1 <= p.limit <= 100 && 0 <= p.Offset() < MAX_PAGE * 100
  {
    var page, limit := 1, defaultLimit;
    if pageArg != "" {
      var n, _ := AtoiSafe(pageArg);
      if n > 0 {
        page := n;
      }
    }
    if limitArg != "" {
      var n, _ := AtoiSafe(limitArg);
      if n > 0 && n <= 100 {
        limit := n;
      }
    }
    if page > MAX_PAGE {
      page := MAX_PAGE;
    }
    p := Params(page, limit);
    OffsetBound(page, limit);
  }

  lemma OffsetBound(page: int, limit: int)
    ensures 1 <= page <= MAX_PAGE && 1 <= limit <= 100 ==> 0 <= (page - 1) * limit < MAX_PAGE * 100
  {
    if 1 <= page <= MAX_PAGE && 1 <= limit <= 100 {
      assert 0 <= (page - 1) * limit <= (MAX_PAGE - 1) * limit;
    }
  }

  /** The usual decimal numeral of a number. */
  function Numeral(n: nat): string {
    var digit := [(n % 10 + '0' as int) as char];
    if n < 10 then digit else Numeral(n / 10) + digit
  }

  lemma {:induction false} NumeralRoundTrips(n: nat)
    ensures AllDigits(Numeral(n)) && Decimal(Numeral(n)) == n && Numeral(n) != ""
  {
    var digit := [(n % 10 + '0' as int) as char];
    if n >= 10 {
      NumeralRoundTrips(n / 10);
      assert Numeral(n)[..|Numeral(n)| - 1] == Numeral(n / 10);
    } else {
      assert digit[..0] == "";
    }
  }

  /** Every page number and limit in range, written as a numeral, is what the parser returns. */
  lemma InRangeRoundTrips(page: nat, limit: nat)
    requires 1 <= page <= MAX_PAGE && 1 <= limit <= 100
    ensures ValueOf(Numeral(page)) == page && ValueOf(Numeral(limit)) == limit
  {
    NumeralRoundTrips(page);
    NumeralRoundTrips(limit);
  }
}
