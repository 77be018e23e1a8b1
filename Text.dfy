/**
 * Text helpers: `String.prototype.includes`, `toLowerCase` on ASCII letters,
 * and the mock price of a trading pair.
 */
module Text {

  /** `s.includes(sub)`. */
  function Contains(s: string, sub: string): bool
    decreases |s|
  {
    |sub| <= |s| && (s[..|sub|] == sub || Contains(s[1..], sub))
  }

  /** `sub` occurs in `s` starting at position `i`. */
  ghost predicate OccursAt(s: string, sub: string, i: int) {
    0 <= i && i + |sub| <= |s| && s[i..i + |sub|] == sub
  }

  /** `Contains` holds exactly when the pattern occurs at some position. */
  lemma {:induction false} ContainsIff(s: string, sub: string)
    ensures Contains(s, sub) <==> exists i :: OccursAt(s, sub, i)
    decreases |s|
  {
    if |sub| <= |s| {
      if s[..|sub|] == sub {
        assert OccursAt(s, sub, 0);
      } else {
        ContainsIff(s[1..], sub);
        if Contains(s[1..], sub) {
          var i :| OccursAt(s[1..], sub, i);
          assert s[i + 1..i + 1 + |sub|] == s[1..][i..i + |sub|];
          assert OccursAt(s, sub, i + 1);
        }
        if exists i :: OccursAt(s, sub, i) {
          var i :| OccursAt(s, sub, i);
          assert i != 0;
          assert s[1..][i - 1..i - 1 + |sub|] == s[i..i + |sub|];
          assert OccursAt(s[1..], sub, i - 1);
        }
      }
    }
  }

  /** The empty pattern occurs in every string. */
  lemma ContainsEmpty(s: string)
    ensures Contains(s, "")
  {
    assert s[..0] == "";
  }

  /** `toLowerCase` on one character, for the ASCII letters. */
  function LowerChar(c: char): (r: char)
    ensures 'A' <= c <= 'Z' ==> r as int == c as int + 32
    ensures !('A' <= c <= 'Z') ==> r == c
    ensures !('A' <= r <= 'Z')
  {
    if 'A' <= c <= 'Z' then (c as int + 32) as char else c
  }

  /** `s.toLowerCase()`, character by character. */
  function Lower(s: string): (r: string)
    ensures |r| == |s|
    ensures forall i :: 0 <= i < |s| ==> r[i] == LowerChar(s[i])
  {
    seq(|s|, i requires 0 <= i < |s| => LowerChar(s[i]))
  }

  /** Lower-casing twice is lower-casing once. */
  lemma LowerIdempotent(s: string)
    ensures Lower(Lower(s)) == Lower(s)
  {
  }

  /**
   * The mock market price of a pair, used as the order-book base price, the
   * order form's default price and the first candle's open: 30000 for a
   * pair naming BTC, else 2000 for one naming ETH, else 1.
   */
  function BasePrice(symbol: string): (r: real)
    ensures r > 0.0
    ensures (r == 30000.0) <==> Contains(symbol, "BTC")
    ensures (r == 2000.0) <==> !Contains(symbol, "BTC") && Contains(symbol, "ETH")
    ensures (r == 1.0) <==> !Contains(symbol, "BTC") && !Contains(symbol, "ETH")
  {
    if Contains(symbol, "BTC") then 30000.0
    else if Contains(symbol, "ETH") then 2000.0
    else 1.0
  }

  /** A pattern whose first character does not occur is not contained. */
  lemma {:induction false} MissingFirstChar(s: string, sub: string)
    requires sub != [] && sub[0] !in s
    ensures !Contains(s, sub)
    decreases |s|
  {
    if |sub| <= |s| {
      assert s[0] != sub[0];
      MissingFirstChar(s[1..], sub);
    }
  }

  /** BTC wins over ETH; pairs naming neither get 1. */
  lemma BasePriceOfBtcPairs()
    ensures BasePrice("BTCUSDT") == 30000.0
    ensures BasePrice("ETHBTC") == 30000.0
  {
    assert "BTCUSDT"[..3] == "BTC";
    assert "ETHBTC"[1..][1..][1..] == "BTC";
  }

  lemma BasePriceOfEthPair()
    ensures BasePrice("ETHUSDT_PERP") == 2000.0
  {
    var s := "ETHUSDT_PERP";
    assert forall i :: 0 <= i < |s| ==> s[i] != 'B';
    MissingFirstChar(s, "BTC");
    assert s[..3] == "ETH";
  }

  lemma BasePriceOfOtherPair()
    ensures BasePrice("SOLUSDT") == 1.0
  {
    var s := "SOLUSDT";
    assert forall i :: 0 <= i < |s| ==> s[i] != 'B' && s[i] != 'E';
    MissingFirstChar(s, "BTC");
    MissingFirstChar(s, "ETH");
  }
}
