/** What the Trust Positif service and the standalone fetch script share: the
    Set-Cookie to Cookie fold (sections 5.2 and 5.4 of RFC 6265), the CSRF-token
    extraction from the form page, and the reading of one returned row. */
module TrustPositifForm {
  import opened Wrappers
  import opened Text
  import opened Js

  // ---------------------------------------------------------------------------
  // Cookies

  /** The `set-cookie` response header as the HTTP client exposes it. */
  datatype SetCookie = NoHeader | One(value: string) | Many(values: seq<string>)

  /** `if (!setCookies)`: no header, or a single empty string. */
  predicate CookieHeaderAbsent(h: SetCookie) {
    h.NoHeader? || h == One("")
  }

  function CookieValues(h: SetCookie): seq<string> {
    match h
    case NoHeader => []
    case One(v) => [v]
    case Many(vs) => vs
  }

  /** The name=value pair of one Set-Cookie line: the text before the first ";",
      trimmed. */
  function CookiePair(c: string): (r: string)
    ensures ';' !in r
  {
    var before := BeforeFirst(c, ';');
    TrimShape(before);
    assert forall k :: 0 <= k < |Trim(before)| ==> Trim(before)[k] == before[|before| - |TrimStart(before)| + k];
    Trim(before)
  }

  /** The non-empty pairs of the lines, in order. */
  function CookiePairs(cs: seq<string>): (r: seq<string>)
    ensures forall k :: 0 <= k < |r| ==> r[k] != "" && ';' !in r[k]
    ensures |r| <= |cs|
  {
    if |cs| == 0 then []
    else
      var p := CookiePair(cs[|cs| - 1]);
      CookiePairs(cs[..|cs| - 1]) + if p == "" then [] else [p]
  }

  /** The Cookie request header: the pairs joined with "; ". */
  function CookieHeader(h: SetCookie): string {
    Join(CookiePairs(CookieValues(h)), "; ")
  }

  /** Every pair is already trimmed. */
  lemma {:induction false} PairsTrimmed(cs: seq<string>)
    ensures forall k :: 0 <= k < |CookiePairs(cs)| ==> Trim(CookiePairs(cs)[k]) == CookiePairs(cs)[k]
  {
    if |cs| > 0 {
      PairsTrimmed(cs[..|cs| - 1]);
      TrimIdempotent(BeforeFirst(cs[|cs| - 1], ';'));
    }
  }

  /** The pairs with a space before each one but the first: the pieces of the header
      between its ";" separators. */
  function Spaced(parts: seq<string>): (r: seq<string>)
    requires |parts| >= 1
    ensures |r| == |parts| && r[0] == parts[0]
    ensures forall k :: 1 <= k < |parts| ==> r[k] == " " + parts[k]
  {
    [parts[0]] + Prefixed(parts[1..])
  }

  /** Each piece with a space in front. */
  function Prefixed(parts: seq<string>): (r: seq<string>)
    ensures |r| == |parts|
    ensures forall k :: 0 <= k < |parts| ==> r[k] == " " + parts[k]
  {
    if |parts| == 0 then [] else [" " + parts[0]] + Prefixed(parts[1..])
  }

  lemma {:induction false} JoinSpaced(parts: seq<string>)
    requires |parts| >= 1
    ensures Join(parts, "; ") == Join(Spaced(parts), ";")
  {
    if |parts| > 1 {
      var tail := parts[1..];
      JoinPrefixed(tail);
      var sp := Spaced(parts);
      assert sp[1..] == Prefixed(tail);
      JoinCons(parts[0], sp[1..], ";");
      assert sp == [parts[0]] + sp[1..];
      assert Join(parts, "; ") == parts[0] + "; " + Join(tail, "; ");
      assert parts[0] + "; " + Join(tail, "; ") == parts[0] + ";" + (" " + Join(tail, "; "));
    }
  }

  /** Joining the space-prefixed pieces with ";" is a space, then the pieces joined
      with "; ". */
  lemma {:induction false} JoinPrefixed(xs: seq<string>)
    requires |xs| >= 1
    ensures Join(Prefixed(xs), ";") == " " + Join(xs, "; ")
    decreases |xs|
  {
    var px := Prefixed(xs);
    if |xs| > 1 {
      var rest := xs[1..];
      JoinPrefixed(rest);
      assert px == [" " + xs[0]] + Prefixed(rest);
      JoinCons(" " + xs[0], Prefixed(rest), ";");
      assert " " + xs[0] + ";" + (" " + Join(rest, "; ")) == " " + (xs[0] + "; " + Join(rest, "; "));
    } else {
      assert px == [" " + xs[0]];
    }
  }

  /** `Join` read from the front. */
  lemma JoinCons(x: string, rest: seq<string>, sep: string)
    ensures Join([x] + rest, sep) == if |rest| == 0 then x else x + sep + Join(rest, sep)
  {
    assert ([x] + rest)[1..] == rest;
  }

  lemma TrimAfterSpace(p: string)
    requires p != "" && Trim(p) == p
    ensures Trim(" " + p) == p
  {
    TrimShape(p);
    assert (" " + p)[1..] == p;
    TrimStartIdle(p);
    TrimEndIdle(p);
  }

  lemma SplitSpaced(pairs: seq<string>)
    requires |pairs| >= 1
    requires forall k :: 0 <= k < |pairs| ==> pairs[k] != "" && ';' !in pairs[k] && Trim(pairs[k]) == pairs[k]
    ensures var pieces := Split(Join(pairs, "; "), ';');
      |pieces| == |pairs| && forall k :: 0 <= k < |pairs| ==> Trim(pieces[k]) == pairs[k]
  {
    JoinSpaced(pairs);
    var sp := Spaced(pairs);
    forall k | 0 <= k < |sp|
      ensures ';' !in sp[k]
    {
      if k > 0 {
        assert sp[k] == " " + pairs[k];
      }
    }
    SplitJoin(sp, ';');
    forall k | 0 <= k < |pairs|
      ensures Trim(sp[k]) == pairs[k]
    {
      if k > 0 {
        TrimAfterSpace(pairs[k]);
      }
    }
  }

  /** Splitting the Cookie header at ";" and trimming each piece gives back exactly the
      pairs: no pair is cut and none is merged. */
  lemma CookieHeaderSplits(h: SetCookie)
    requires |CookiePairs(CookieValues(h))| >= 1
    ensures var pairs := CookiePairs(CookieValues(h)); var pieces := Split(CookieHeader(h), ';');
      |pieces| == |pairs| && forall k :: 0 <= k < |pairs| ==> Trim(pieces[k]) == pairs[k]
  {
    PairsTrimmed(CookieValues(h));
    SplitSpaced(CookiePairs(CookieValues(h)));
  }

  // ---------------------------------------------------------------------------
  // CSRF token

  predicate IsQuote(c: char) { c == '"' || c == '\'' }

  /** `pat` (lower-case) occurs at `i`, ASCII letters compared without case. */
  predicate CaselessAt(s: string, pat: string, i: int) {
    0 <= i && i + |pat| <= |s| && forall k :: 0 <= k < |pat| ==> LowerChar(s[i + k]) == pat[k]
  }

  /** `name=["']csrf_token["']` at `i` (17 characters). */
  predicate NameAt(s: string, i: int) {
    && CaselessAt(s, "name=", i) && i + 5 < |s| && IsQuote(s[i + 5])
    && CaselessAt(s, "csrf_token", i + 6) && i + 16 < |s| && IsQuote(s[i + 16])
  }

  /** The longest run of characters other than `stop` from `j`. */
  function RunWithout(s: string, j: nat, quotes: bool): (r: nat)
    requires j <= |s|
    ensures j + r <= |s|
    ensures forall k :: j <= k < j + r ==> if quotes then !IsQuote(s[k]) else s[k] != '>'
    ensures j + r == |s| || (if quotes then IsQuote(s[j + r]) else s[j + r] == '>')
    decreases |s| - j
  {
    if j == |s| || (if quotes then IsQuote(s[j]) else s[j] == '>') then 0
    else 1 + RunWithout(s, j + 1, quotes)
  }

  /** `value=["']([^"']+)["']` at `j`: the token runs from `j + 7` to the next quote. */
  predicate ValueAt(s: string, j: int) {
    && CaselessAt(s, "value=", j) && j + 6 < |s| && IsQuote(s[j + 6])
    && RunWithout(s, j + 7, true) >= 1 && j + 7 + RunWithout(s, j + 7, true) < |s|
  }

  function TokenAt(s: string, j: int): (r: string)
    requires ValueAt(s, j)
    ensures |r| >= 1 && forall k :: 0 <= k < |r| ==> !IsQuote(r[k])
  {
    s[j + 7..j + 7 + RunWithout(s, j + 7, true)]
  }

  /** The greatest `j` in [lo, hi] where a value attribute starts: `[^>]*` is greedy. */
  function LastValueIn(s: string, lo: int, hi: int): (r: Option<int>)
    ensures r.Some? ==> (lo <= r.value <= hi && ValueAt(s, r.value)
      && forall j :: r.value < j <= hi ==> !ValueAt(s, j))
    ensures r.None? ==> forall j :: lo <= j <= hi ==> !ValueAt(s, j)
    decreases hi - lo
  {
    if hi < lo then None
    else if ValueAt(s, hi) then Some(hi)
    else LastValueIn(s, lo, hi - 1)
  }

  predicate SomeNameIn(s: string, lo: int, hi: int) {
    exists j :: lo <= j <= hi && NameAt(s, j)
  }

  /** The first pattern at `i`: the name attribute, then, before any '>', the value
      attribute (the last one there). */
  function NameThenValue(s: string, i: nat): (r: Option<int>)
    requires i <= |s|
    ensures r.Some? ==> ValueAt(s, r.value)
  {
    if !NameAt(s, i) then None
    else LastValueIn(s, i + 17, i + 17 + RunWithout(s, i + 17, false))
  }

  /** The second pattern at `i`: the value attribute, then, before any '>', the name
      attribute. */
  predicate ValueThenName(s: string, i: nat)
    requires i <= |s|
  {
    ValueAt(s, i) &&
      var after := i + 7 + RunWithout(s, i + 7, true) + 1;
      SomeNameIn(s, after, after + RunWithout(s, after, false))
  }

  /** The first pattern matches at `i`. */
  predicate NameThenValueAt(s: string, i: nat) {
    i <= |s| && NameThenValue(s, i).Some?
  }

  /** The leftmost start of the first pattern at or after `i`. */
  function FirstNameThenValue(s: string, i: nat): (r: Option<nat>)
    requires i <= |s|
    ensures r.Some? ==> (i <= r.value <= |s| && NameThenValueAt(s, r.value)
      && forall k :: i <= k < r.value ==> !NameThenValueAt(s, k))
    ensures r.None? ==> forall k :: i <= k <= |s| ==> !NameThenValueAt(s, k)
    decreases |s| - i
  {
    if NameThenValueAt(s, i) then Some(i)
    else if i == |s| then None
    else FirstNameThenValue(s, i + 1)
  }

  /** The leftmost start of the second pattern at or after `i`. */
  function FirstValueThenName(s: string, i: nat): (r: Option<nat>)
    requires i <= |s|
    ensures r.Some? ==> (i <= r.value <= |s| && ValueThenName(s, r.value)
      && forall k :: i <= k < r.value ==> !ValueThenName(s, k))
    ensures r.None? ==> forall k :: i <= k <= |s| ==> !ValueThenName(s, k)
    decreases |s| - i
  {
    if ValueThenName(s, i) then Some(i)
    else if i == |s| then None
    else FirstValueThenName(s, i + 1)
  }

  const NO_TOKEN_MESSAGE: string := "Could not extract CSRF token from Trust Positif page"

  /** `extractCsrfToken`: name before value, else value before name; the token is the
      captured quote-free value. */
  function ExtractCsrfToken(html: string): (r: Result<string>)
    ensures r.Ok? ==> (|r.value| >= 1 && (forall k :: 0 <= k < |r.value| ==> !IsQuote(r.value[k]))
      && exists j :: 0 <= j < |html| && ValueAt(html, j) && TokenAt(html, j) == r.value)
    ensures r.Err? <==>
      (forall i :: 0 <= i <= |html| ==> !NameThenValueAt(html, i) && !ValueThenName(html, i))
    ensures r.Err? ==> r.error == Error(NO_TOKEN_MESSAGE)
  {
    var first := FirstNameThenValue(html, 0);
    if first.Some? then
      Ok(TokenAt(html, NameThenValue(html, first.value).value))
    else
      var second := FirstValueThenName(html, 0);
      if second.Some? then Ok(TokenAt(html, second.value))
      else Err(Error(NO_TOKEN_MESSAGE))
  }

  /** A page with the name attribute before the value attribute yields the first
      pattern's token, whatever else the page holds. */
  lemma NameFirstWins(html: string, i: nat)
    requires i <= |html| && NameThenValue(html, i).Some?
    ensures var first := FirstNameThenValue(html, 0);
      first.Some? && first.value <= i
      && ExtractCsrfToken(html) == Ok(TokenAt(html, NameThenValue(html, first.value).value))
  {
    assert NameThenValueAt(html, i);
  }

  // ---------------------------------------------------------------------------
  // Rows

  /** `String(row.F ?? row.f ?? '').trim()` for a field spelt `F` or `f`. */
  function RowField(row: Value, upper: string, lower: string): string {
    Trim(ToString(Coalesce(Coalesce(Get(row, upper), Get(row, lower)), Str(""))))
  }

  /** The capitalised spelling wins when present. */
  lemma RowFieldPrefersUpper(row: Value, upper: string, lower: string)
    ensures !Nullish(Get(row, upper)) ==> RowField(row, upper, lower) == Trim(ToString(Get(row, upper)))
    ensures Nullish(Get(row, upper)) && !Nullish(Get(row, lower)) ==>
      RowField(row, upper, lower) == Trim(ToString(Get(row, lower)))
    ensures Nullish(Get(row, upper)) && Nullish(Get(row, lower)) ==> RowField(row, upper, lower) == ""
  {
    assert Trim("") == "";
  }
}
