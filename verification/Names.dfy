/**
  Exchange and market names: the normal forms every component applies to them, and the
  `exchange:market` keys the market cache and the fee registry store their entries under.
  Case and white space are those of ASCII.
 */
module Names {

  predicate IsSpace(c: char) {
    c == ' ' || '\t' <= c <= '\r'
  }

  function LowerChar(c: char): char {
    if 'A' <= c <= 'Z' then c + 32 as char else c
  }

  function UpperChar(c: char): char {
    if 'a' <= c <= 'z' then c - 32 as char else c
  }

  function Lower(s: string): (r: string)
    ensures |r| == |s|
  {
    seq(|s|, i requires 0 <= i < |s| => LowerChar(s[i]))
  }

  function Upper(s: string): (r: string)
    ensures |r| == |s|
  {
    seq(|s|, i requires 0 <= i < |s| => UpperChar(s[i]))
  }

  function TrimLeft(s: string): string {
    if s != "" && IsSpace(s[0]) then TrimLeft(s[1..]) else s
  }

  function TrimRight(s: string): string {
    if s != "" && IsSpace(s[|s| - 1]) then TrimRight(s[..|s| - 1]) else s
  }

  function Trim(s: string): string { TrimRight(TrimLeft(s)) }

  /** The separators `groupByMarket` drops from a market name. */
  predicate IsSeparator(c: char) {
    IsSpace(c) || c == '_' || c == '-' || c == '/'
  }

  predicate NotAlphanumeric(c: char) { !('A' <= c <= 'Z' || '0' <= c <= '9') }

  predicate EndsWith(s: string, suffix: string) { |suffix| <= |s| && s[|s| - |suffix|..] == suffix }

  function Strip(s: string, drop: char -> bool): string {
    if s == "" then ""
    else if drop(s[0]) then Strip(s[1..], drop)
    else [s[0]] + Strip(s[1..], drop)
  }

  /** `trim().toLowerCase()` */
  function NormExchange(s: string): string { Lower(Trim(s)) }

  /** `trim().toUpperCase()` */
  function NormMarket(s: string): string { Upper(Trim(s)) }

  /** The comparison engine's form: also without separators. */
  function CanonicalMarket(s: string): string { Strip(NormMarket(s), IsSeparator) }

  function Key(exchange: string, market: string): string { exchange + ":" + market }

  ghost predicate ColonFree(s: string) { ':' !in s }

  // ---- normal forms are fixed points ----

  predicate Trimmed(s: string) {
    s == "" || (!IsSpace(s[0]) && !IsSpace(s[|s| - 1]))
  }

  lemma {:induction false} TrimLeftStarts(s: string)
    ensures TrimLeft(s) == "" || !IsSpace(TrimLeft(s)[0])
  {
    if s != "" && IsSpace(s[0]) {
      TrimLeftStarts(s[1..]);
    }
  }

  lemma {:induction false} TrimRightTrimmed(s: string)
    requires s == "" || !IsSpace(s[0])
    ensures Trimmed(TrimRight(s))
  {
    if s != "" && IsSpace(s[|s| - 1]) {
      TrimRightTrimmed(s[..|s| - 1]);
    }
  }

  lemma TrimIsTrimmed(s: string)
    ensures Trimmed(Trim(s))
  {
    TrimLeftStarts(s);
    TrimRightTrimmed(TrimLeft(s));
  }

  lemma NormExchangeFixed(s: string)
    ensures NormExchange(NormExchange(s)) == NormExchange(s)
    ensures Trimmed(NormExchange(s))
  {
    TrimIsTrimmed(s);
    var n := NormExchange(s);
    assert Trimmed(n);
    assert Lower(n) == n;
  }

  lemma NormMarketFixed(s: string)
    ensures NormMarket(NormMarket(s)) == NormMarket(s)
    ensures Trimmed(NormMarket(s))
  {
    TrimIsTrimmed(s);
    var n := NormMarket(s);
    assert Trimmed(n);
    assert Upper(n) == n;
  }

  // ---- what the normal forms do to a name ----

  ghost predicate Blank(s: string) { forall i :: 0 <= i < |s| ==> s[i] in " \t\n\U{B}\U{C}\r" }

  lemma {:induction false} TrimLeftDrops(s: string) returns (left: string)
    ensures Blank(left) && s == left + TrimLeft(s)
  {
    left := "";
    if s != "" && IsSpace(s[0]) {
      var rest := TrimLeftDrops(s[1..]);
      left := [s[0]] + rest;
      assert s == [s[0]] + s[1..];
    }
  }

  lemma {:induction false} TrimRightDrops(s: string) returns (right: string)
    ensures Blank(right) && s == TrimRight(s) + right
  {
    right := "";
    if s != "" && IsSpace(s[|s| - 1]) {
      var rest := TrimRightDrops(s[..|s| - 1]);
      right := rest + [s[|s| - 1]];
      assert s == s[..|s| - 1] + [s[|s| - 1]];
    }
  }

  /** Trimming takes white space off both ends, all of it, and nothing else. */
  lemma TrimDropsBlanks(s: string) returns (left: string, right: string)
    ensures Blank(left) && Blank(right) && s == left + Trim(s) + right && Trimmed(Trim(s))
  {
    left := TrimLeftDrops(s);
    right := TrimRightDrops(TrimLeft(s));
    TrimIsTrimmed(s);
  }

  /** Case alone is changed, letter by letter. */
  lemma LowerCaseIs(s: string, i: nat)
    requires i < |s|
    ensures Lower(s)[i] == if s[i] in "ABCDEFGHIJKLMNOPQRSTUVWXYZ" then (s[i] as int + 32) as char else s[i]
  {
  }

  lemma UpperCaseIs(s: string, i: nat)
    requires i < |s|
    ensures Upper(s)[i] == if s[i] in "abcdefghijklmnopqrstuvwxyz" then (s[i] as int - 32) as char else s[i]
  {
  }

  /** Stripping goes through a name from left to right and keeps what is not to be dropped. */
  lemma {:induction false} StripNext(s: string, c: char, drop: char -> bool)
    ensures Strip(s + [c], drop) == Strip(s, drop) + if drop(c) then "" else [c]
  {
    if s == "" {
      assert [c][1..] == "";
    } else {
      assert (s + [c])[1..] == s[1..] + [c];
      StripNext(s[1..], c, drop);
    }
  }

  lemma DroppedCharacters(c: char)
    ensures IsSeparator(c) <==> c in " \t\n\U{B}\U{C}\r_-/"
  {
  }

  lemma AlphanumericCharacters(c: char)
    ensures NotAlphanumeric(c) <==> c !in "ABCDEFGHIJKLMNOPQRSTUVWXYZ0123456789"
  {
  }

  // ---- names that end in a quote asset ----

  predicate KnownQuote(quote: string) {
    quote == "USDT" || quote == "USDC" || quote == "INR" || quote == "BTC" || quote == "ETH"
  }

  lemma NotSuffix(market: string, s: string, k: nat)
    requires 1 <= k <= |s| <= |market| && market[|market| - k] != s[|s| - k]
    ensures !EndsWith(market, s)
  {
    assert market[|market| - |s|..][|s| - k] == market[|market| - k];
  }

  /** No two known quote assets end alike. */
  lemma OtherSuffix(asset: string, quote: string, other: string)
    requires KnownQuote(quote) && KnownQuote(other) && other != quote
    ensures !EndsWith(asset + quote, other)
  {
    var market := asset + quote;
    var n := |market|;
    assert market[n - 1] == quote[|quote| - 1] && market[n - 2] == quote[|quote| - 2];
    if |other| <= n {
      NotSuffix(market, other, if quote[|quote| - 1] != other[|other| - 1] then 1 else 2);
    }
  }

  // ---- keys ----

  /** A key names one exchange and one market, as long as exchange names hold no colon. */
  lemma {:induction false} KeyInjective(e1: string, m1: string, e2: string, m2: string)
    requires ColonFree(e1) && ColonFree(e2)
    requires Key(e1, m1) == Key(e2, m2)
    ensures e1 == e2 && m1 == m2
  {
    var k := Key(e1, m1);
    assert k[|e1|] == ':' && k[|e2|] == ':';
    assert e1 == k[..|e1|] && e2 == k[..|e2|];
    assert m1 == k[|e1| + 1..] && m2 == k[|e2| + 1..];
  }

  /** With a colon in an exchange name two different venues share a key. */
  lemma KeyCollision()
    ensures Key("a:1", "C") == Key("a", "1:C")
    ensures NormExchange("a:1") == "a:1" && NormMarket("C") == "C"
    ensures NormExchange("a") == "a" && NormMarket("1:C") == "1:C"
  {
  }
}
