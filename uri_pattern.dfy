/**
 A hand-written recogniser for the request-URI pattern `(\/api\/v)(\d+)(\/).*`, matched
 against the whole URI (`Matcher.matches`). It yields the text of the digit group, or
 `None` when the URI does not have the shape `/api/v<digits>/<rest>`.
 */
module UriPattern {
  import opened JavaLang

  const Prefix: string := "/api/v"

  /**
   The characters Java's `.` refuses without the DOTALL flag: line feed, carriage return,
   next line, line separator and paragraph separator.
   */
  predicate IsLineTerminator(c: char) {
    c == '\n' || c == '\r' || c == '\U{85}' || c == '\U{2028}' || c == '\U{2029}'
  }

  /** What `.*` matches: any text without a line terminator. */
  predicate AnyLine(s: string) {
    forall i :: 0 <= i < |s| ==> !IsLineTerminator(s[i])
  }

  /** The end of the run of digits that starts at `i`. */
  function DigitRunEnd(s: string, i: nat): (k: nat)
    requires i <= |s|
    ensures i <= k <= |s|
    ensures forall j :: i <= j < k ==> IsDigit(s[j])
    ensures k < |s| ==> !IsDigit(s[k])
    decreases |s| - i
  {
    if i < |s| && IsDigit(s[i]) then DigitRunEnd(s, i + 1) else i
  }

  /**
   The digit group of a URI that fully matches the pattern. `\d+` cannot swallow the
   `/` that must follow it, so the group is the whole run of digits after the prefix.
   */
  function VersionDigits(uri: string): (r: Option<string>)
    ensures r.Some? ==> |r.value| > 0 && AllDigits(r.value)
    ensures r.Some? ==> |uri| > |Prefix| + |r.value|
    ensures r.Some? ==>
      var rest := uri[|Prefix| + |r.value| + 1..];
      uri == Prefix + r.value + "/" + rest && AnyLine(rest)
  {
    if |uri| < |Prefix| || uri[..|Prefix|] != Prefix then None
    else
      var k := DigitRunEnd(uri, |Prefix|);
      if k == |Prefix| || k == |uri| || uri[k] != '/' || !AnyLine(uri[k + 1..]) then None
      else
        var digits := uri[|Prefix|..k];
        assert uri == Prefix + digits + "/" + uri[k + 1..];
        Some(digits)
  }

  /** The language of the pattern, stated directly. */
  ghost predicate FullMatch(uri: string) {
    exists digits, rest ::
      |digits| > 0 && AllDigits(digits) && AnyLine(rest) && uri == Prefix + digits + "/" + rest
  }

  /** Every URI of the shape `/api/v<digits>/<rest>` is recognised, with exactly those digits. */
  lemma VersionDigitsComplete(digits: string, rest: string)
    requires |digits| > 0 && AllDigits(digits) && AnyLine(rest)
    ensures VersionDigits(Prefix + digits + "/" + rest) == Some(digits)
  {
    var uri := Prefix + digits + "/" + rest;
    var n := |Prefix| + |digits|;
    assert uri[..|Prefix|] == Prefix;
    assert uri[n] == '/';
    var k := DigitRunEnd(uri, |Prefix|);
    assert k == n;
    assert uri[|Prefix|..k] == digits;
    assert uri[k + 1..] == rest;
  }

  /** The recogniser accepts exactly the URIs in the pattern's language. */
  lemma VersionDigitsSoundAndComplete(uri: string)
    ensures VersionDigits(uri).Some? <==> FullMatch(uri)
  {
    if FullMatch(uri) {
      var digits, rest :|
        |digits| > 0 && AllDigits(digits) && AnyLine(rest) && uri == Prefix + digits + "/" + rest;
      VersionDigitsComplete(digits, rest);
    }
    var r := VersionDigits(uri);
    if r.Some? {
      var rest := uri[|Prefix| + |r.value| + 1..];
      assert |r.value| > 0 && AllDigits(r.value) && AnyLine(rest) && uri == Prefix + r.value + "/" + rest;
    }
  }

  /** URIs without the versioned shape are rejected. */
  lemma RejectedShapes()
    ensures VersionDigits("/widgets/5") == None
    ensures VersionDigits("/api/v2") == None
    ensures VersionDigits("/api/vx/a") == None
    ensures VersionDigits("/api/v/a") == None
    ensures VersionDigits("/api/v2/a\nb") == None
  {
    assert "/widgets/5"[..6] != Prefix by { assert "/widgets/5"[1] == 'w'; }
    var x := "/api/vx/a";
    assert x[..6] == Prefix;
    assert DigitRunEnd(x, 6) == 6;
    var y := "/api/v/a";
    assert y[..6] == Prefix;
    assert DigitRunEnd(y, 6) == 6;
    var z := "/api/v2";
    assert z[..6] == Prefix;
    assert DigitRunEnd(z, 6) == 7;
    var w := "/api/v2/a\nb";
    assert w[..6] == Prefix;
    assert DigitRunEnd(w, 6) == 7;
    assert !AnyLine(w[8..]) by { assert w[8..][1] == '\n'; }
  }

  /** Leading zeros stay in the digit group; `/api/v007/a` carries version 7. */
  lemma LeadingZerosAccepted()
    ensures VersionDigits("/api/v007/a") == Some("007")
    ensures ParseInt("007") == Parsed(7)
  {
    VersionDigitsComplete("007", "a");
    assert Prefix + "007" + "/" + "a" == "/api/v007/a";
    LeadingZerosIgnored(2, "7");
    assert Zeros(2) + "7" == "007";
  }
}
