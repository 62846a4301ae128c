/**
 * The three input validators of main.py (is_valid_url, is_valid_email,
 * is_valid_mobile_number). Each is `re.match` of an anchored pattern
 * `^BODY$`. The recognizers below follow the shape of each pattern; beside
 * each one stands a plain reference definition of the accepted language and
 * a lemma proving the two agree on every string.
 */
module Validators {

  // ---------------------------------------------------------------------
  // Character classes and small string helpers
  // ---------------------------------------------------------------------

  /** `[0-9]`: exactly the ASCII decimal digits. */
  predicate IsDigit(c: char) { '0' <= c <= '9' }

  /** `\w`, restricted to ASCII: letters, digits and underscore. */
  predicate IsWordChar(c: char) {
    ('a' <= c <= 'z') || ('A' <= c <= 'Z') || IsDigit(c) || c == '_'
  }

  /** `\s`, restricted to ASCII: code points 9-13, 28-31 and the space. */
  predicate IsSpace(c: char) {
    var n := c as int;
    n == 32 || 9 <= n <= 13 || 28 <= n <= 31
  }

  /** `[^/\s]`: anything but a slash or whitespace. */
  predicate IsUrlChar(c: char) { c != '/' && !IsSpace(c) }

  /** `[\w\.-]`: word characters, dot and hyphen. */
  predicate IsEmailChar(c: char) { IsWordChar(c) || c == '.' || c == '-' }

  /** Every character of `s` is in the class `cls` (the regex `cls*`). */
  predicate AllIn(s: string, cls: char -> bool) {
    forall i | 0 <= i < |s| :: cls(s[i])
  }

  /** The regex `cls+`. */
  predicate OneOrMore(s: string, cls: char -> bool) {
    |s| > 0 && AllIn(s, cls)
  }

  /** The regex `cls{n}`, one character at a time. */
  predicate Repeat(s: string, n: nat, cls: char -> bool)
    decreases n
  {
    if n == 0 then s == [] else |s| > 0 && cls(s[0]) && Repeat(s[1..], n - 1, cls)
  }

  /** Index of the first `c` in `s`, or `|s|` when there is none. */
  function IndexOf(s: string, c: char): (r: nat)
    ensures r <= |s|
    ensures r < |s| ==> s[r] == c
    ensures forall j | 0 <= j < r :: s[j] != c
  {
    if |s| == 0 then 0 else if s[0] == c then 0 else 1 + IndexOf(s[1..], c)
  }

  /** Index of the last `c` in `s`, or -1 when there is none. */
  function LastIndexOf(s: string, c: char): (r: int)
    ensures -1 <= r < |s|
    ensures r >= 0 ==> s[r] == c
    ensures forall j | r < j < |s| :: s[j] != c
  {
    if |s| == 0 then -1
    else if s[|s| - 1] == c then |s| - 1
    else LastIndexOf(s[..|s| - 1], c)
  }

  /**
   * `re.match(r"^BODY$", s)` without MULTILINE: `^` anchors at the start and
   * `$` matches at the very end or just before one final newline, so `s`
   * is accepted when BODY matches all of it or all of it but a final '\n'.
   */
  predicate MatchesWhole(s: string, body: string -> bool) {
    body(s) || (|s| > 0 && s[|s| - 1] == '\n' && body(s[..|s| - 1]))
  }

  // ---------------------------------------------------------------------
  // is_valid_url: ^(?:http|https)://[^/\s]+(?:/[^/\s]*)*$
  // ---------------------------------------------------------------------

  /** `(?:/[^/\s]*)*`: zero or more slash-led segments. */
  predicate UrlSegments(t: string)
    decreases |t|
  {
    t == [] ||
    (t[0] == '/' &&
     exists k | 1 <= k <= |t| :: AllIn(t[1..k], IsUrlChar) && UrlSegments(t[k..]))
  }

  /** `[^/\s]+(?:/[^/\s]*)*`: a host followed by path segments. */
  predicate UrlHostAndPath(r: string) {
    exists k | 1 <= k <= |r| :: OneOrMore(r[..k], IsUrlChar) && UrlSegments(r[k..])
  }

  /** The pattern body, its alternation `http|https` written as two cases. */
  predicate UrlBody(s: string) {
    ("http://" <= s && UrlHostAndPath(s[7..])) ||
    ("https://" <= s && UrlHostAndPath(s[8..]))
  }

  /** is_valid_url (main.py:61-65). */
  predicate IsValidUrl(url: string) {
    MatchesWhole(url, UrlBody)
  }

  /** In plain terms: after the scheme, a non-empty rest free of whitespace
      whose first character is not a slash. */
  predicate UrlRestPlain(r: string) {
    |r| > 0 && r[0] != '/' && forall i | 0 <= i < |r| :: !IsSpace(r[i])
  }

  predicate UrlPlain(s: string) {
    ("http://" <= s && UrlRestPlain(s[7..])) ||
    ("https://" <= s && UrlRestPlain(s[8..]))
  }

  lemma {:induction false} UrlSegmentsIff(t: string)
    ensures UrlSegments(t) <==>
            (t == [] || (t[0] == '/' && forall i | 0 <= i < |t| :: !IsSpace(t[i])))
    decreases |t|
  {
    if t != [] && t[0] == '/' {
      if UrlSegments(t) {
        var k :| 1 <= k <= |t| && AllIn(t[1..k], IsUrlChar) && UrlSegments(t[k..]);
        UrlSegmentsIff(t[k..]);
        forall i | 0 <= i < |t| ensures !IsSpace(t[i]) {
          if 1 <= i < k {
            assert t[i] == t[1..k][i - 1];
          } else if k <= i {
            assert t[i] == t[k..][i - k];
          }
        }
      }
      if forall i | 0 <= i < |t| :: !IsSpace(t[i]) {
        var k := 1 + IndexOf(t[1..], '/');
        forall i | 0 <= i < k - 1 ensures IsUrlChar(t[1..k][i]) {
          assert t[1..k][i] == t[1..][i] == t[i + 1];
        }
        assert forall i | 0 <= i < |t[k..]| :: t[k..][i] == t[k + i];
        UrlSegmentsIff(t[k..]);
      }
    }
  }

  lemma UrlHostAndPathIff(r: string)
    ensures UrlHostAndPath(r) <==> UrlRestPlain(r)
  {
    if UrlHostAndPath(r) {
      var k :| 1 <= k <= |r| && OneOrMore(r[..k], IsUrlChar) && UrlSegments(r[k..]);
      UrlSegmentsIff(r[k..]);
      assert r[0] == r[..k][0];
      forall i | 0 <= i < |r| ensures !IsSpace(r[i]) {
        if i < k {
          assert r[i] == r[..k][i];
        } else {
          assert r[i] == r[k..][i - k];
        }
      }
    }
    if UrlRestPlain(r) {
      var k := IndexOf(r, '/');
      assert AllIn(r[..k], IsUrlChar);
      assert forall i | 0 <= i < |r[k..]| :: r[k..][i] == r[k + i];
      UrlSegmentsIff(r[k..]);
      assert OneOrMore(r[..k], IsUrlChar) && UrlSegments(r[k..]);
    }
  }

  /** The URL pattern body accepts exactly the plain description. */
  lemma UrlBodyIff(s: string)
    ensures UrlBody(s) <==> UrlPlain(s)
  {
    if "http://" <= s { UrlHostAndPathIff(s[7..]); }
    if "https://" <= s { UrlHostAndPathIff(s[8..]); }
  }

  /** is_valid_url accepts exactly: the plain description, optionally
      followed by one final newline. */
  lemma IsValidUrlIff(url: string)
    ensures IsValidUrl(url) <==>
            (UrlPlain(url) ||
             (|url| > 0 && url[|url| - 1] == '\n' && UrlPlain(url[..|url| - 1])))
  {
    UrlBodyIff(url);
    if |url| > 0 { UrlBodyIff(url[..|url| - 1]); }
  }

  /** Without an `http://` or `https://` prefix a string is rejected. */
  lemma UrlNeedsScheme(url: string)
    requires !("http://" <= url) && !("https://" <= url)
    ensures !IsValidUrl(url)
  {
    IsValidUrlIff(url);
  }

  /** Empty path segments are accepted. */
  lemma UrlEmptySegments()
    ensures IsValidUrl("http://a//b")
  {
    IsValidUrlIff("http://a//b");
    assert "http://a//b"[7..] == "a//b";
  }

  /** One final newline is accepted. */
  lemma UrlTrailingNewline()
    ensures IsValidUrl("https://a/\n")
  {
    IsValidUrlIff("https://a/\n");
    assert "https://a/\n"[..10] == "https://a/";
    assert "https://a/"[8..] == "a/";
  }

  /** A rest starting with a slash, an embedded space, another scheme and
      the empty string are rejected. */
  lemma UrlRejections()
    ensures !IsValidUrl("http:///x")
    ensures !IsValidUrl("http://a b")
    ensures !IsValidUrl("ftp://x")
    ensures !IsValidUrl("")
  {
    IsValidUrlIff("http:///x");
    assert "http:///x"[7..] == "/x";
    assert "http:///x"[..8][4] != "https://"[4];
    IsValidUrlIff("http://a b");
    assert "http://a b"[7..][1] == ' ';
    assert "http://a b"[..8][4] != "https://"[4];
    assert "http://a b"[9] != '\n';
    assert "ftp://x"[..7][0] != "http://"[0];
    assert "ftp://x"[..7] != "http://";
    UrlNeedsScheme("ftp://x");
    UrlNeedsScheme("");
  }

  // ---------------------------------------------------------------------
  // is_valid_email: ^[\w\.-]+@[\w\.-]+\.\w+$
  // ---------------------------------------------------------------------

  /** `[\w\.-]+\.\w+`: the part after the '@'. */
  predicate DomainBody(d: string) {
    exists k | 0 <= k < |d| ::
      OneOrMore(d[..k], IsEmailChar) && d[k] == '.' && OneOrMore(d[k + 1..], IsWordChar)
  }

  predicate EmailBody(s: string) {
    exists a | 0 <= a < |s| ::
      OneOrMore(s[..a], IsEmailChar) && s[a] == '@' && DomainBody(s[a + 1..])
  }

  /** is_valid_email (main.py:67-71). */
  predicate IsValidEmail(email: string) {
    MatchesWhole(email, EmailBody)
  }

  /** In plain terms: the domain is made of allowed characters, its last dot
      has at least one character before it and only word characters (one or
      more, so no '-' and no '.') after it. */
  predicate DomainPlain(d: string) {
    AllIn(d, IsEmailChar) &&
    var k := LastIndexOf(d, '.');
    1 <= k < |d| - 1 && forall j | k < j < |d| :: d[j] != '-'
  }

  /** The local part runs up to the first '@'; it is non-empty and made of
      allowed characters. */
  predicate EmailPlain(s: string) {
    var a := IndexOf(s, '@');
    0 < a < |s| && AllIn(s[..a], IsEmailChar) && DomainPlain(s[a + 1..])
  }

  lemma DomainBodyIff(d: string)
    ensures DomainBody(d) <==> DomainPlain(d)
  {
    if DomainBody(d) {
      var k :| 0 <= k < |d| && OneOrMore(d[..k], IsEmailChar) && d[k] == '.' &&
               OneOrMore(d[k + 1..], IsWordChar);
      forall j | k < j < |d| ensures IsWordChar(d[j]) {
        assert d[j] == d[k + 1..][j - k - 1];
      }
      forall j | 0 <= j < k ensures IsEmailChar(d[j]) {
        assert d[j] == d[..k][j];
      }
      var last := LastIndexOf(d, '.');
      assert last == k;
    }
    if DomainPlain(d) {
      var k := LastIndexOf(d, '.');
      assert OneOrMore(d[..k], IsEmailChar);
      assert OneOrMore(d[k + 1..], IsWordChar);
    }
  }

  /** The email pattern body accepts exactly the plain description. */
  lemma EmailBodyIff(s: string)
    ensures EmailBody(s) <==> EmailPlain(s)
  {
    if EmailBody(s) {
      var a :| 0 <= a < |s| && OneOrMore(s[..a], IsEmailChar) && s[a] == '@' &&
               DomainBody(s[a + 1..]);
      forall j | 0 <= j < a ensures s[j] != '@' {
        assert s[j] == s[..a][j];
      }
      assert IndexOf(s, '@') == a;
      DomainBodyIff(s[a + 1..]);
    }
    if EmailPlain(s) {
      var a := IndexOf(s, '@');
      DomainBodyIff(s[a + 1..]);
    }
  }

  /** is_valid_email accepts exactly: the plain description, optionally
      followed by one final newline. */
  lemma IsValidEmailIff(email: string)
    ensures IsValidEmail(email) <==>
            (EmailPlain(email) ||
             (|email| > 0 && email[|email| - 1] == '\n' && EmailPlain(email[..|email| - 1])))
  {
    EmailBodyIff(email);
    if |email| > 0 { EmailBodyIff(email[..|email| - 1]); }
  }

  lemma EmailPlainOneAt(s: string)
    requires EmailPlain(s)
    ensures multiset(s)['@'] == 1
  {
    var a := IndexOf(s, '@');
    var d := s[a + 1..];
    assert s == s[..a] + [s[a]] + d;
    assert '@' !in s[..a];
    assert forall i | 0 <= i < |d| :: d[i] != '@';
    assert '@' !in d;
  }

  /** An accepted email holds exactly one '@'. */
  lemma EmailHasOneAt(email: string)
    requires IsValidEmail(email)
    ensures multiset(email)['@'] == 1
  {
    IsValidEmailIff(email);
    if !EmailPlain(email) {
      var p := email[..|email| - 1];
      EmailPlainOneAt(p);
      assert email == p + ['\n'];
    } else {
      EmailPlainOneAt(email);
    }
  }

  /** A dotted local part and a multi-label domain are accepted. */
  lemma EmailAcceptsDotted()
    ensures IsValidEmail("a.b-c@m.ex.io")
  {
    var e := "a.b-c@m.ex.io";
    assert IndexOf(e, '@') == 5;
    assert e[6..] == "m.ex.io";
    assert LastIndexOf("m.ex.io", '.') == 4;
    assert EmailPlain(e);
    IsValidEmailIff(e);
  }

  /** One final newline is accepted. */
  lemma EmailTrailingNewline()
    ensures IsValidEmail("x@y.z\n")
  {
    var e := "x@y.z";
    assert IndexOf(e, '@') == 1;
    assert e[2..] == "y.z";
    assert LastIndexOf("y.z", '.') == 1;
    assert EmailPlain(e);
    assert "x@y.z\n"[..5] == e;
    IsValidEmailIff("x@y.z\n");
  }

  /** The empty string, a hyphen after the last dot and a dot right after
      the '@' are rejected. */
  lemma EmailRejections()
    ensures !IsValidEmail("")
    ensures !IsValidEmail("x@y.z-")
    ensures !IsValidEmail("x@.z")
  {
    IsValidEmailIff("");
    var e := "x@y.z-";
    assert IndexOf(e, '@') == 1;
    assert e[2..] == "y.z-";
    assert LastIndexOf("y.z-", '.') == 1;
    assert "y.z-"[3] == '-';
    IsValidEmailIff(e);
    var f := "x@.z";
    assert IndexOf(f, '@') == 1;
    assert f[2..] == ".z";
    assert LastIndexOf(".z", '.') == 0;
    IsValidEmailIff(f);
  }

  // ---------------------------------------------------------------------
  // is_valid_mobile_number: ^[0-9]{10}$
  // ---------------------------------------------------------------------

  predicate MobileBody(s: string) {
    Repeat(s, 10, IsDigit)
  }

  /** is_valid_mobile_number (main.py:73-77). */
  predicate IsValidMobileNumber(mobileNumber: string) {
    MatchesWhole(mobileNumber, MobileBody)
  }

  lemma {:induction false} RepeatIff(s: string, n: nat, cls: char -> bool)
    ensures Repeat(s, n, cls) <==> |s| == n && AllIn(s, cls)
    decreases n
  {
    if n > 0 && |s| > 0 {
      RepeatIff(s[1..], n - 1, cls);
      if AllIn(s[1..], cls) && cls(s[0]) {
        forall i | 0 <= i < |s| ensures cls(s[i]) {
          if i > 0 { assert s[i] == s[1..][i - 1]; }
        }
      }
    }
  }

  /** is_valid_mobile_number accepts exactly ten ASCII digits, optionally
      followed by one final newline. */
  lemma IsValidMobileNumberIff(s: string)
    ensures IsValidMobileNumber(s) <==>
            ((|s| == 10 && AllIn(s, IsDigit)) ||
             (|s| == 11 && s[10] == '\n' && AllIn(s[..10], IsDigit)))
  {
    RepeatIff(s, 10, IsDigit);
    if |s| > 0 { RepeatIff(s[..|s| - 1], 10, IsDigit); }
  }

  /** Any length other than 10 or 11 is rejected, the empty string included. */
  lemma MobileLength(s: string)
    requires IsValidMobileNumber(s)
    ensures |s| == 10 || (|s| == 11 && s[10] == '\n')
  {
    IsValidMobileNumberIff(s);
  }

  lemma MobileExamples()
    ensures IsValidMobileNumber("0123456789")
    ensures IsValidMobileNumber("0123456789\n")
    ensures !IsValidMobileNumber("")
    ensures !IsValidMobileNumber("012345678x")
    ensures !IsValidMobileNumber("+123456789")
  {
    IsValidMobileNumberIff("0123456789");
    IsValidMobileNumberIff("0123456789\n");
    assert "0123456789\n"[..10] == "0123456789";
    IsValidMobileNumberIff("");
    IsValidMobileNumberIff("012345678x");
    assert "012345678x"[9] == 'x';
    IsValidMobileNumberIff("+123456789");
    assert "+123456789"[0] == '+';
  }
}
