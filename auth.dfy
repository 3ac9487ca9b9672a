/**
 * The request headers: `Accept: application/json` always, and an
 * `Authorization` header built from the token when one is given. Case
 * folding is modelled for ASCII letters only.
 */
module Auth {

  const BearerPrefix: string := "Bearer "
  const LowerBearerPrefix: string := "bearer "

  function LowerChar(c: char): char {
    if 'A' <= c <= 'Z' then (c as int - 'A' as int + 'a' as int) as char else c
  }

  /**
   * `str.lower()` on ASCII text: each upper-case letter becomes the letter 32
   * code points further on, every other character is kept, and no upper-case
   * letter remains.
   */
  function Lower(s: string): (r: string)
    ensures |r| == |s|
    ensures forall i :: 0 <= i < |s| && 'A' <= s[i] <= 'Z' ==> r[i] as int == s[i] as int + 32
    ensures forall i :: 0 <= i < |s| && !('A' <= s[i] <= 'Z') ==> r[i] == s[i]
    ensures forall i :: 0 <= i < |r| ==> !('A' <= r[i] <= 'Z')
  {
    seq(|s|, i requires 0 <= i < |s| => LowerChar(s[i]))
  }

  predicate StartsWith(s: string, prefix: string) {
    |prefix| <= |s| && s[..|prefix|] == prefix
  }

  /**
   * `token.lower().startswith("bearer ")`: only the first seven characters
   * matter, and they must spell "bearer " in any letter case.
   */
  function HasBearerPrefix(token: string): (has: bool)
    ensures has <==> |token| >= 7 && Lower(token[..7]) == LowerBearerPrefix
  {
    assert |token| >= 7 ==> Lower(token)[..7] == Lower(token[..7]);
    StartsWith(Lower(token), LowerBearerPrefix)
  }

  lemma BearerPrefixIsRecognised(token: string)
    ensures HasBearerPrefix(BearerPrefix + token)
  {
    var h := BearerPrefix + token;
    assert Lower(h)[..7] == LowerBearerPrefix by {
      forall i | 0 <= i < 7 ensures Lower(h)[i] == LowerBearerPrefix[i] {
        assert h[i] == BearerPrefix[i];
      }
    }
  }

  /**
   * The `Authorization` value for a non-empty token: it always starts with
   * "bearer " in some letter case and always ends with the token, which is
   * passed through unchanged exactly when it already carries that prefix.
   */
  function Normalize(token: string): (h: string)
    ensures HasBearerPrefix(h)
    ensures h == token <==> HasBearerPrefix(token)
    ensures h == token || h == BearerPrefix + token
    ensures |token| <= |h| && h[|h| - |token|..] == token
  {
    if HasBearerPrefix(token) then token
    else
      BearerPrefixIsRecognised(token);
      BearerPrefix + token
  }

  /** Normalising an already normalised value changes nothing. */
  lemma NormalizeIdempotent(token: string)
    ensures Normalize(Normalize(token)) == Normalize(token)
  {
  }

  /** The `headers` dict, built as the source builds it: start with `Accept`, then add `Authorization`. */
  method BuildHeaders(token: string) returns (headers: map<string, string>)
    ensures headers.Keys == if token == "" then {"Accept"} else {"Accept", "Authorization"}
    ensures headers["Accept"] == "application/json"
    ensures token != "" ==> headers["Authorization"] == Normalize(token)
    ensures token != "" ==> HasBearerPrefix(headers["Authorization"])
  {
    headers := map["Accept" := "application/json"];
    if token != "" {
      headers := headers["Authorization" := Normalize(token)];
    }
  }
}
