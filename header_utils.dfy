/** The pagination headers of list responses (app/utils/header_utils.py over the
    `PageResponse` of app/conf/page_response.py). */
module HeaderUtils {
  import opened Wrappers

  /** `PageResponse`: one page of results and its position. */
  datatype PageResponse<T> = PageResponse(content: seq<T>, page: int, size: int, total: int)

  predicate IsDigit(c: char)
  {
    '0' <= c <= '9'
  }

  /** A non-empty run of decimal digits. */
  predicate IsDigits(s: string)
  {
    |s| > 0 && forall i :: 0 <= i < |s| ==> IsDigit(s[i])
  }

  function DigitChar(d: int): (c: char)
    requires 0 <= d < 10
    ensures IsDigit(c) && c as int - '0' as int == d
  {
    ('0' as int + d) as char
  }

  /** `str(n)` for `n >= 0`: digits, most significant first, without leading zeros. */
  function NatToDecimal(n: nat): (s: string)
    ensures IsDigits(s)
    ensures |s| > 1 ==> s[0] != '0'
    ensures s[0] == '0' <==> n == 0
    decreases n
  {
    if n < 10 then [DigitChar(n)] else NatToDecimal(n / 10) + [DigitChar(n % 10)]
  }

  /** `str(n)`: a leading `-` for negative numbers. */
  function IntToDecimal(n: int): (s: string)
    ensures n >= 0 ==> IsDigits(s)
    ensures n < 0 ==> |s| > 1 && s[0] == '-' && IsDigits(s[1..]) && s[1] != '0'
  {
    if n >= 0 then NatToDecimal(n) else "-" + NatToDecimal(-n)
  }

  /** The value of a run of digits. */
  function DigitsValue(s: string): nat
    requires forall i :: 0 <= i < |s| ==> IsDigit(s[i])
    decreases |s|
  {
    if s == [] then 0
    else
      var last := s[|s| - 1];
      assert IsDigit(last);
      DigitsValue(s[..|s| - 1]) * 10 + (last as int - '0' as int)
  }

  /** `int(s)` on an optionally signed run of digits; `None` for other text. */
  function ParseInt(s: string): Option<int>
  {
    if IsDigits(s) then Some(DigitsValue(s))
    else if |s| > 1 && s[0] == '-' && IsDigits(s[1..]) then Some(-(DigitsValue(s[1..]) as int))
    else None
  }

  lemma {:induction false} NatToDecimalRoundTrip(n: nat)
    ensures DigitsValue(NatToDecimal(n)) == n
    decreases n
  {
    if n >= 10 {
      var s := NatToDecimal(n);
      assert s[..|s| - 1] == NatToDecimal(n / 10);
      NatToDecimalRoundTrip(n / 10);
    }
  }

  /** `int(str(n)) == n` for every integer. */
  lemma IntToDecimalRoundTrip(n: int)
    ensures ParseInt(IntToDecimal(n)) == Some(n)
  {
    if n >= 0 {
      NatToDecimalRoundTrip(n);
    } else {
      NatToDecimalRoundTrip(-n);
      assert ("-" + NatToDecimal(-n))[1..] == NatToDecimal(-n);
    }
  }

  /** `create_list_header`: exactly `X-Page`, `X-Size` and `X-Total-Count`, each the
      decimal text of the matching field. */
  function CreateListHeader<T>(p: PageResponse<T>): (h: map<string, string>)
    ensures h.Keys == {"X-Page", "X-Size", "X-Total-Count"}
    ensures h["X-Page"] == IntToDecimal(p.page)
    ensures h["X-Size"] == IntToDecimal(p.size)
    ensures h["X-Total-Count"] == IntToDecimal(p.total)
  {
    map["X-Page" := IntToDecimal(p.page), "X-Size" := IntToDecimal(p.size), "X-Total-Count" := IntToDecimal(p.total)]
  }

  /** Parsing each header gives back its field. */
  lemma HeadersRoundTrip<T>(p: PageResponse<T>)
    ensures var h := CreateListHeader(p);
            ParseInt(h["X-Page"]) == Some(p.page) && ParseInt(h["X-Size"]) == Some(p.size) &&
            ParseInt(h["X-Total-Count"]) == Some(p.total)
  {
    IntToDecimalRoundTrip(p.page);
    IntToDecimalRoundTrip(p.size);
    IntToDecimalRoundTrip(p.total);
  }

  /** The page's content has no influence on its headers, and different positions give
      different headers. */
  lemma HeadersDependOnPositionOnly<T>(p: PageResponse<T>, q: PageResponse<T>)
    ensures CreateListHeader(p) == CreateListHeader(q) <==>
              p.page == q.page && p.size == q.size && p.total == q.total
  {
    if CreateListHeader(p) == CreateListHeader(q) {
      HeadersRoundTrip(p);
      HeadersRoundTrip(q);
    }
  }
}
