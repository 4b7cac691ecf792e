/**
 * The URL-shape validator of the Shorty schema (api/models/shorty.js), a
 * case-insensitive regular expression anchored at both ends. `ValidUrl` is the
 * language of that expression written as a decidable predicate: the input
 * splits into scheme, optional user info, host, optional port and optional
 * path, and the host is either a public dotted-quad IPv4 address (guarded by
 * three negative look-aheads) or a host name ending in a top-level domain.
 */
module UrlValidator {

  /** The message the schema attaches to a failed URL validation. */
  const Message: string := "Invalid URL!"

  // ---------------------------------------------------------------------------
  // Character classes

  /** `\d` */
  predicate IsDigit(c: char) {
    '0' <= c <= '9'
  }

  /** `\s`: the ECMAScript white space and line terminator characters. */
  predicate IsSpace(c: char) {
    var n := c as int;
    n == 0x09 || n == 0x0A || n == 0x0B || n == 0x0C || n == 0x0D || n == 0x20 ||
    n == 0xA0 || n == 0x1680 || (0x2000 <= n <= 0x200A) || n == 0x2028 ||
    n == 0x2029 || n == 0x202F || n == 0x205F || n == 0x3000 || n == 0xFEFF
  }

  /** `[a-z¡-￿]` under the `i` flag. */
  predicate IsLetter(c: char) {
    'a' <= c <= 'z' || 'A' <= c <= 'Z' || c as int >= 0xA1
  }

  /** `[a-z¡-￿0-9]` under the `i` flag. */
  predicate IsHostChar(c: char) {
    IsLetter(c) || IsDigit(c)
  }

  /** The characters that may end the host: port and path introducers. */
  predicate IsDelimiter(c: char) {
    c == ':' || c == '/' || c == '?' || c == '#'
  }

  predicate AllDigits(s: string) {
    s == [] || (IsDigit(s[0]) && AllDigits(s[1..]))
  }

  predicate AllLetters(s: string) {
    s == [] || (IsLetter(s[0]) && AllLetters(s[1..]))
  }

  /** `\S*` */
  predicate NoSpace(s: string) {
    s == [] || (!IsSpace(s[0]) && NoSpace(s[1..]))
  }

  predicate AllHostCharsOrHyphens(s: string) {
    s == [] || ((IsHostChar(s[0]) || s[0] == '-') && AllHostCharsOrHyphens(s[1..]))
  }

  /** ASCII lower-casing, the folding the `i` flag applies to the scheme. */
  function Lower(c: char): char {
    if 'A' <= c <= 'Z' then (c as int + 32) as char else c
  }

  /** `s` equals the lower-case literal `lit`, ignoring case. */
  predicate CiEquals(s: string, lit: string) {
    if s == [] then lit == []
    else lit != [] && Lower(s[0]) == lit[0] && CiEquals(s[1..], lit[1..])
  }

  predicate StartsWith(s: string, prefix: string) {
    |prefix| <= |s| && s[..|prefix|] == prefix
  }

  // ---------------------------------------------------------------------------
  // Splitting on dots

  /** The position of the first `.` in `s`, or `|s|` when there is none. */
  function IndexOfDot(s: string): (i: nat)
    ensures i <= |s|
    ensures i < |s| ==> s[i] == '.'
    ensures forall j :: 0 <= j < i ==> s[j] != '.'
  {
    if s == [] then 0 else if s[0] == '.' then 0 else 1 + IndexOfDot(s[1..])
  }

  /** The pieces of `s` between dots (`s.split('.')`). */
  function Split(s: string): (parts: seq<string>)
    ensures |parts| >= 1
    decreases |s|
  {
    var i := IndexOfDot(s);
    if i == |s| then [s] else [s[..i]] + Split(s[i + 1..])
  }

  // ---------------------------------------------------------------------------
  // The pieces of the expression

  /** `(?:https?|ftp):\/\/` */
  predicate Scheme(s: string) {
    CiEquals(s, "http://") || CiEquals(s, "https://") || CiEquals(s, "ftp://")
  }

  /** `\S+(?::\S*)?@`: at least one non-space character, then `@`. */
  predicate UserInfo(s: string) {
    |s| >= 2 && s[|s| - 1] == '@' && NoSpace(s[..|s| - 1])
  }

  /** `(?:[1-9]\d?|1\d\d|2[01]\d|22[0-3])` */
  predicate FirstOctet(o: string) {
    (|o| == 1 && '1' <= o[0] <= '9') ||
    (|o| == 2 && '1' <= o[0] <= '9' && IsDigit(o[1])) ||
    (|o| == 3 && o[0] == '1' && IsDigit(o[1]) && IsDigit(o[2])) ||
    (|o| == 3 && o[0] == '2' && (o[1] == '0' || o[1] == '1') && IsDigit(o[2])) ||
    (|o| == 3 && o[0] == '2' && o[1] == '2' && '0' <= o[2] <= '3')
  }

  /** `(?:1?\d{1,2}|2[0-4]\d|25[0-5])` */
  predicate MiddleOctet(o: string) {
    (|o| == 1 && IsDigit(o[0])) ||
    (|o| == 2 && IsDigit(o[0]) && IsDigit(o[1])) ||
    (|o| == 3 && o[0] == '1' && IsDigit(o[1]) && IsDigit(o[2])) ||
    (|o| == 3 && o[0] == '2' && '0' <= o[1] <= '4' && IsDigit(o[2])) ||
    (|o| == 3 && o[0] == '2' && o[1] == '5' && '0' <= o[2] <= '5')
  }

  /** `(?:[1-9]\d?|1\d\d|2[0-4]\d|25[0-4])` */
  predicate LastOctet(o: string) {
    (|o| == 1 && '1' <= o[0] <= '9') ||
    (|o| == 2 && '1' <= o[0] <= '9' && IsDigit(o[1])) ||
    (|o| == 3 && o[0] == '1' && IsDigit(o[1]) && IsDigit(o[2])) ||
    (|o| == 3 && o[0] == '2' && '0' <= o[1] <= '4' && IsDigit(o[2])) ||
    (|o| == 3 && o[0] == '2' && o[1] == '5' && '0' <= o[2] <= '4')
  }

  /** The dotted-quad alternative of the host, without its look-aheads. */
  predicate DottedQuad(x: string) {
    var parts := Split(x);
    |parts| == 4 && FirstOctet(parts[0]) && MiddleOctet(parts[1]) &&
    MiddleOctet(parts[2]) && LastOctet(parts[3])
  }

  /** `s` starts with `n` groups `(?:\.\d{1,3})`. */
  predicate DotGroups(s: string, n: nat)
    decreases n
  {
    n == 0 ||
    (|s| >= 2 && s[0] == '.' &&
      ((AllDigits(s[1..2]) && DotGroups(s[2..], n - 1)) ||
       (|s| >= 3 && AllDigits(s[1..3]) && DotGroups(s[3..], n - 1)) ||
       (|s| >= 4 && AllDigits(s[1..4]) && DotGroups(s[4..], n - 1))))
  }

  /** `(?:1[6-9]|2\d|3[0-1])`, the second octet of 172.16.0.0/12. */
  predicate Private172Second(t: string) {
    |t| == 2 &&
    ((t[0] == '1' && '6' <= t[1] <= '9') || (t[0] == '2' && IsDigit(t[1])) ||
     (t[0] == '3' && (t[1] == '0' || t[1] == '1')))
  }

  /**
   * The three negative look-aheads, read at the start of the host: some prefix
   * of the remaining input looks like an address in 10/8, 127/8, 169.254/16,
   * 192.168/16 or 172.16/12.
   */
  predicate ExcludedAddress(rest: string) {
    (StartsWith(rest, "10") && DotGroups(rest[2..], 3)) ||
    (StartsWith(rest, "127") && DotGroups(rest[3..], 3)) ||
    (StartsWith(rest, "169.254") && DotGroups(rest[7..], 2)) ||
    (StartsWith(rest, "192.168") && DotGroups(rest[7..], 2)) ||
    (StartsWith(rest, "172.") && |rest| >= 6 && Private172Second(rest[4..6]) &&
      DotGroups(rest[6..], 2))
  }

  /** `(?:[a-z¡-￿0-9]-*)*[a-z¡-￿0-9]+`, a domain label. */
  predicate Label(l: string) {
    |l| >= 1 && IsHostChar(l[0]) && IsHostChar(l[|l| - 1]) && AllHostCharsOrHyphens(l)
  }

  /** `[a-z¡-￿]{2,}`, the top-level domain. */
  predicate TopLevel(t: string) {
    |t| >= 2 && AllLetters(t)
  }

  /** The dot-separated names of a host, without the piece after an optional final dot. */
  function Names(x: string): seq<string> {
    var parts := Split(x);
    if |parts| >= 2 && parts[|parts| - 1] == "" then parts[..|parts| - 1] else parts
  }

  /** The host-name alternative: labels, a dot, a top-level domain, an optional dot. */
  predicate HostName(x: string) {
    var names := Names(x);
    |names| >= 2 &&
    (forall i :: 0 <= i < |names| - 1 ==> Label(names[i])) &&
    TopLevel(names[|names| - 1])
  }

  /** The host `x`, where `rest` is the input from the start of the host on. */
  predicate Host(rest: string, x: string) {
    (!ExcludedAddress(rest) && DottedQuad(x)) || HostName(x)
  }

  /** `(?::\d{2,5})?` */
  predicate Port(s: string) {
    s == [] || (s[0] == ':' && 2 <= |s| - 1 <= 5 && AllDigits(s[1..]))
  }

  /** `(?:[\/?#]\S*)?` */
  predicate PathPart(s: string) {
    s == [] || ((s[0] == '/' || s[0] == '?' || s[0] == '#') && NoSpace(s[1..]))
  }

  /** Host, optional port and optional path, to the end of the input. */
  predicate HostPortPath(h: string) {
    exists i, j :: 0 <= i <= j <= |h| && Host(h, h[..i]) && Port(h[i..j]) && PathPart(h[j..])
  }

  /** Everything after the scheme: optional user info, then host, port, path. */
  predicate AfterScheme(t: string) {
    HostPortPath(t) ||
    exists i :: 0 <= i <= |t| && UserInfo(t[..i]) && HostPortPath(t[i..])
  }

  /** The `validator` of the `url` path: the whole string matches the expression. */
  predicate ValidUrl(s: string) {
    exists i :: 0 <= i <= |s| && Scheme(s[..i]) && AfterScheme(s[i..])
  }

  // ---------------------------------------------------------------------------
  // Facts about the pieces

  lemma {:induction false} CiEqualsAt(s: string, lit: string)
    ensures CiEquals(s, lit) ==> |s| == |lit| && forall k :: 0 <= k < |s| ==> Lower(s[k]) == lit[k]
    decreases |s|
  {
    if s != [] && CiEquals(s, lit) {
      CiEqualsAt(s[1..], lit[1..]);
      forall k | 0 <= k < |s| ensures Lower(s[k]) == lit[k] {
        if k > 0 { assert s[1..][k - 1] == s[k]; }
      }
    }
  }

  /** `s` starts with the lower-case literal `lit`, ignoring case. */
  predicate CiStartsWith(s: string, lit: string) {
    |lit| <= |s| && CiEquals(s[..|lit|], lit)
  }

  /** The validator demands the scheme `http`, `https` or `ftp` and `://`. */
  lemma SchemeRule(s: string)
    requires ValidUrl(s)
    ensures CiStartsWith(s, "http://") || CiStartsWith(s, "https://") || CiStartsWith(s, "ftp://")
  {
    var i :| 0 <= i <= |s| && Scheme(s[..i]) && AfterScheme(s[i..]);
    CiEqualsAt(s[..i], "http://");
    CiEqualsAt(s[..i], "https://");
    CiEqualsAt(s[..i], "ftp://");
    assert forall k :: 0 <= k < i ==> s[..i][k] == s[k];
  }

  /** No port or path introducer occurs in `x`. */
  predicate NoDelimiters(x: string) {
    forall k :: 0 <= k < |x| ==> !IsDelimiter(x[k])
  }

  lemma {:induction false} DigitsHaveNoDelimiters(s: string)
    requires AllDigits(s)
    ensures NoDelimiters(s) && forall k :: 0 <= k < |s| ==> IsDigit(s[k])
    decreases |s|
  {
    if s != [] {
      DigitsHaveNoDelimiters(s[1..]);
      assert forall k :: 1 <= k < |s| ==> s[k] == s[1..][k - 1];
    }
  }

  lemma {:induction false} HostCharsHaveNoDelimiters(s: string)
    requires AllHostCharsOrHyphens(s)
    ensures NoDelimiters(s)
    decreases |s|
  {
    if s != [] {
      HostCharsHaveNoDelimiters(s[1..]);
      assert forall k :: 1 <= k < |s| ==> s[k] == s[1..][k - 1];
    }
  }

  lemma {:induction false} LettersAreHostChars(s: string)
    requires AllLetters(s)
    ensures AllHostCharsOrHyphens(s)
    decreases |s|
  {
    if s != [] {
      LettersAreHostChars(s[1..]);
    }
  }

  /** A string is its pieces joined by dots, so pieces free of delimiters make it free of them. */
  lemma {:induction false} SplitNoDelimiters(y: string)
    requires forall p :: 0 <= p < |Split(y)| ==> NoDelimiters(Split(y)[p])
    ensures NoDelimiters(y)
    decreases |y|
  {
    var i := IndexOfDot(y);
    if i < |y| {
      var rest := y[i + 1..];
      assert Split(y) == [y[..i]] + Split(rest);
      forall p | 0 <= p < |Split(rest)| ensures NoDelimiters(Split(rest)[p]) {
        assert Split(rest)[p] == Split(y)[p + 1];
      }
      SplitNoDelimiters(rest);
      assert NoDelimiters(Split(y)[0]);
      forall k | 0 <= k < |y| ensures !IsDelimiter(y[k]) {
        if k < i { assert y[k] == y[..i][k]; }
        else if k > i { assert y[k] == rest[k - i - 1]; }
      }
    } else {
      assert Split(y) == [y];
      assert NoDelimiters(Split(y)[0]);
    }
  }

  /** The pieces of a host name hold no port or path introducer. */
  lemma HostNamePiecesClean(x: string)
    requires HostName(x)
    ensures forall p :: 0 <= p < |Split(x)| ==> NoDelimiters(Split(x)[p])
  {
    var parts := Split(x);
    var names := Names(x);
    forall p | 0 <= p < |parts| ensures NoDelimiters(parts[p]) {
      if p < |names| - 1 {
        assert parts[p] == names[p];
        assert Label(names[p]);
        HostCharsHaveNoDelimiters(parts[p]);
      } else if p == |names| - 1 {
        assert parts[p] == names[p];
        assert TopLevel(names[p]);
        LettersAreHostChars(parts[p]);
        HostCharsHaveNoDelimiters(parts[p]);
      }
    }
  }

  /** The pieces of a dotted quad are digits only. */
  lemma QuadPiecesClean(x: string)
    requires DottedQuad(x)
    ensures forall p :: 0 <= p < |Split(x)| ==> NoDelimiters(Split(x)[p])
  {
    var parts := Split(x);
    forall p | 0 <= p < |parts| ensures NoDelimiters(parts[p]) {
      var o := parts[p];
      assert |o| <= 3 && forall k :: 0 <= k < |o| ==> IsDigit(o[k]);
    }
  }

  /** Whatever the host alternative accepts holds no port or path introducer. */
  lemma HostHasNoDelimiters(rest: string, x: string)
    requires Host(rest, x)
    ensures NoDelimiters(x)
  {
    if HostName(x) {
      HostNamePiecesClean(x);
    } else {
      QuadPiecesClean(x);
    }
    SplitNoDelimiters(x);
  }

  /** An optional port followed by an optional path, the whole of `t`. */
  predicate PortThenPath(t: string) {
    exists j :: 0 <= j <= |t| && Port(t[..j]) && PathPart(t[j..])
  }

  /**
   * When `x` holds no port or path introducer and `tail` is empty or starts
   * with one, the host is exactly `x` and the rest is port and path.
   */
  lemma HostIsolated(x: string, tail: string)
    requires NoDelimiters(x)
    requires tail == [] || IsDelimiter(tail[0])
    ensures HostPortPath(x + tail) <==> Host(x + tail, x) && PortThenPath(tail)
  {
    var h := x + tail;
    if HostPortPath(h) {
      var i, j :| 0 <= i <= j <= |h| && Host(h, h[..i]) && Port(h[i..j]) && PathPart(h[j..]);
      HostEndsAtDelimiter(x, tail, i, j);
    }
    if Host(h, x) && PortThenPath(tail) {
      var j :| 0 <= j <= |tail| && Port(tail[..j]) && PathPart(tail[j..]);
      assert h[..|x|] == x && h[|x|..|x| + j] == tail[..j] && h[|x| + j..] == tail[j..];
    }
  }

  /** A host, port and path split of `x + tail` cuts exactly after `x`. */
  lemma HostEndsAtDelimiter(x: string, tail: string, i: int, j: int)
    requires NoDelimiters(x)
    requires tail == [] || IsDelimiter(tail[0])
    requires 0 <= i <= j <= |x + tail|
    requires Host(x + tail, (x + tail)[..i]) && Port((x + tail)[i..j]) && PathPart((x + tail)[j..])
    ensures i == |x| && Host(x + tail, x) && Port(tail[..j - i]) && PathPart(tail[j - i..])
  {
    var h := x + tail;
    HostHasNoDelimiters(h, h[..i]);
    CutAfter(x, tail, i, j);
    assert h[..i] == x;
    assert tail[..j - i] == h[i..j] && tail[j - i..] == h[j..];
  }

  lemma CutAfter(x: string, tail: string, i: int, j: int)
    requires NoDelimiters(x)
    requires tail == [] || IsDelimiter(tail[0])
    requires 0 <= i <= j <= |x + tail|
    requires NoDelimiters((x + tail)[..i]) && Port((x + tail)[i..j]) && PathPart((x + tail)[j..])
    ensures i == |x|
  {
    CutNotBefore(x, tail, i, j);
    CutNotAfter(x, tail, i);
  }

  /** Port and path start with a delimiter, so they cannot start inside `x`. */
  lemma CutNotBefore(x: string, tail: string, i: int, j: int)
    requires NoDelimiters(x)
    requires 0 <= i <= j <= |x + tail|
    requires Port((x + tail)[i..j]) && PathPart((x + tail)[j..])
    ensures i >= |x|
  {
    var h := x + tail;
    assert forall k :: 0 <= k < |x| ==> h[k] == x[k];
    assert i < j ==> h[i..j][0] == h[i];
    assert j < |h| ==> h[j..][0] == h[j];
  }

  /** The host holds no delimiter, so it cannot reach past `x` into `tail`. */
  lemma CutNotAfter(x: string, tail: string, i: int)
    requires tail == [] || IsDelimiter(tail[0])
    requires 0 <= i <= |x + tail|
    requires NoDelimiters((x + tail)[..i])
    ensures i <= |x|
  {
    var h := x + tail;
    assert forall k :: 0 <= k < i ==> h[..i][k] == h[k];
    assert |x| < |h| ==> h[|x|] == tail[0];
  }

  /** Without an `@` there is no user info. */
  lemma NoUserInfo(t: string)
    requires '@' !in t
    ensures AfterScheme(t) <==> HostPortPath(t)
  {
  }

  /** A URL that starts with a scheme has that scheme and no other: the cut after it is unique. */
  lemma SchemeCut(s: string, t: string, i: int)
    requires Scheme(s) && 0 <= i <= |s| + |t| && Scheme((s + t)[..i])
    ensures i == |s|
  {
    var u := (s + t)[..i];
    CiEqualsAt(s, "http://");
    CiEqualsAt(s, "https://");
    CiEqualsAt(s, "ftp://");
    CiEqualsAt(u, "http://");
    CiEqualsAt(u, "https://");
    CiEqualsAt(u, "ftp://");
    assert |s| >= 6 && i >= 6;
    assert u[0] == s[0] && u[4] == s[4];
  }

  /** After any scheme, in any letter case, the validator judges the rest alone. */
  lemma SchemeSplit(s: string, t: string)
    requires Scheme(s)
    ensures ValidUrl(s + t) <==> AfterScheme(t)
  {
    var x := s + t;
    if ValidUrl(x) {
      var i :| 0 <= i <= |x| && Scheme(x[..i]) && AfterScheme(x[i..]);
      SchemeCut(s, t, i);
      assert x[i..] == t;
    }
    if AfterScheme(t) {
      assert x[..|s|] == s && x[|s|..] == t;
    }
  }

  /** The only scheme a URL starting with `http:` can have is `http://`. */
  lemma HttpSchemeCut(h: string, i: int)
    requires 0 <= i <= 7 + |h| && Scheme(("http://" + h)[..i])
    ensures i == 7
  {
    var s := "http://" + h;
    CiEqualsAt(s[..i], "http://");
    CiEqualsAt(s[..i], "https://");
    CiEqualsAt(s[..i], "ftp://");
    assert forall k :: 0 <= k < i ==> s[..i][k] == s[k];
    assert s[0] == 'h' && Lower(s[0]) == 'h';
    assert s[4] == ':' && Lower(s[4]) == ':';
    assert !CiEquals(s[..i], "https://");
    assert !CiEquals(s[..i], "ftp://");
  }

  /** After a literal `http://`, the validator judges the rest alone. */
  lemma HttpScheme(h: string)
    ensures ValidUrl("http://" + h) <==> AfterScheme(h)
  {
    var s := "http://" + h;
    if ValidUrl(s) {
      var i :| 0 <= i <= |s| && Scheme(s[..i]) && AfterScheme(s[i..]);
      HttpSchemeCut(h, i);
      assert s[i..] == h;
    }
    if AfterScheme(h) {
      assert s[..7] == "http://" && s[7..] == h;
      assert Scheme(s[..7]);
    }
  }

  /**
   * The rule for `http://` URLs without user info: the host `x` must pass the
   * host alternatives and the `tail` must be an optional port and path.
   */
  lemma HttpHostRule(x: string, tail: string)
    requires NoDelimiters(x) && '@' !in x + tail
    requires tail == [] || IsDelimiter(tail[0])
    ensures ValidUrl("http://" + x + tail) <==> Host(x + tail, x) && PortThenPath(tail)
  {
    assert "http://" + x + tail == "http://" + (x + tail);
    HttpScheme(x + tail);
    NoUserInfo(x + tail);
    HostIsolated(x, tail);
  }

  // ---------------------------------------------------------------------------
  // Dotted-quad hosts

  /** One to three decimal digits, the text of one octet the look-aheads can see. */
  predicate OctetText(o: string) {
    1 <= |o| <= 3 && AllDigits(o)
  }

  /** The host `a.b.c.d`. */
  function Quad(a: string, b: string, c: string, d: string): string {
    a + "." + b + "." + c + "." + d
  }

  function DigitValue(c: char): int {
    c as int - '0' as int
  }

  /** The decimal value of a digit string. */
  function Val(s: string): int {
    if s == [] then 0 else 10 * Val(s[..|s| - 1]) + DigitValue(s[|s| - 1])
  }

  lemma OctetDigits(o: string)
    requires OctetText(o)
    ensures forall k :: 0 <= k < |o| ==> IsDigit(o[k])
    ensures |o| == 1 ==> Val(o) == DigitValue(o[0])
    ensures |o| == 2 ==> Val(o) == 10 * DigitValue(o[0]) + DigitValue(o[1])
    ensures |o| == 3 ==> Val(o) == 100 * DigitValue(o[0]) + 10 * DigitValue(o[1]) + DigitValue(o[2])
  {
    DigitsHaveNoDelimiters(o);
    assert Val(o[..0]) == 0;
    if |o| >= 2 {
      assert Val(o[..1]) == DigitValue(o[0]) by { assert o[..1][..0] == o[..0]; }
    }
    if |o| == 3 {
      assert Val(o[..2]) == 10 * DigitValue(o[0]) + DigitValue(o[1]) by {
        assert o[..2][..1] == o[..1];
      }
    }
  }

  /** A digit string `a` followed by a dot splits off `a` as the first piece. */
  lemma SplitDigits(a: string, rest: string)
    requires AllDigits(a)
    ensures Split(a) == [a]
    ensures Split(a + "." + rest) == [a] + Split(rest)
  {
    DigitsHaveNoDelimiters(a);
    var s := a + "." + rest;
    assert forall k :: 0 <= k < |a| ==> s[k] == a[k] && a[k] != '.';
    assert IndexOfDot(s) == |a| by {
      var i := IndexOfDot(s);
      assert s[|a|] == '.';
    }
    assert s[..|a|] == a && s[|a| + 1..] == rest;
    assert IndexOfDot(a) == |a|;
  }

  lemma QuadSplit(a: string, b: string, c: string, d: string)
    requires OctetText(a) && OctetText(b) && OctetText(c) && OctetText(d)
    ensures Split(Quad(a, b, c, d)) == [a, b, c, d]
  {
    var bcd := b + "." + c + "." + d;
    TripleSplit(b, c, d);
    SplitDigits(a, bcd);
    assert a + "." + bcd == Quad(a, b, c, d);
  }

  lemma TripleSplit(b: string, c: string, d: string)
    requires OctetText(b) && OctetText(c) && OctetText(d)
    ensures Split(b + "." + c + "." + d) == [b, c, d]
  {
    var cd := c + "." + d;
    SplitDigits(d, "");
    SplitDigits(c, d);
    SplitDigits(b, cd);
    assert b + "." + cd == b + "." + c + "." + d;
  }

  /** `a.b.c.d` regrouped around its first and its second dot. */
  lemma QuadAssoc(a: string, b: string, c: string, d: string)
    ensures Quad(a, b, c, d) == a + ("." + b + "." + c + "." + d)
    ensures Quad(a, b, c, d) == a + "." + b + ("." + c + "." + d)
  {
    var cd := "." + c + "." + d;
    assert "." + b + "." + c + "." + d == "." + b + cd;
    assert a + "." + b + "." + c + "." + d == a + "." + b + cd;
  }

  /** `a.b.c.d` holds only digits and dots. */
  lemma QuadAlphabet(a: string, b: string, c: string, d: string)
    requires OctetText(a) && OctetText(b) && OctetText(c) && OctetText(d)
    ensures var h := Quad(a, b, c, d);
      forall k :: 0 <= k < |h| ==> IsDigit(h[k]) || h[k] == '.'
  {
    OctetDigits(a);
    OctetDigits(b);
    OctetDigits(c);
    OctetDigits(d);
    var h := Quad(a, b, c, d);
    var ab := a + "." + b;
    var cd := c + "." + d;
    assert h == ab + "." + cd;
    assert forall k :: 0 <= k < |ab| ==> IsDigit(ab[k]) || ab[k] == '.' by {
      assert forall k :: 0 <= k < |a| ==> ab[k] == a[k];
      assert forall k :: |a| < k < |ab| ==> ab[k] == b[k - |a| - 1];
    }
    assert forall k :: 0 <= k < |cd| ==> IsDigit(cd[k]) || cd[k] == '.' by {
      assert forall k :: 0 <= k < |c| ==> cd[k] == c[k];
      assert forall k :: |c| < k < |cd| ==> cd[k] == d[k - |c| - 1];
    }
    assert forall k :: 0 <= k < |ab| ==> h[k] == ab[k];
    assert forall k :: |ab| < k < |h| ==> h[k] == cd[k - |ab| - 1];
  }

  /** The look-ahead groups see `.b.c.d` after an octet. */
  lemma DotGroupsOfOctets(b: string, c: string, d: string)
    requires OctetText(b) && OctetText(c) && OctetText(d)
    ensures DotGroups("." + b + "." + c + "." + d, 3)
    ensures DotGroups("." + c + "." + d, 2)
  {
    TwoDotGroups(c, d);
    DotGroupsStep(b, "." + c + "." + d, 3);
    DotAssoc(b, c, d);
  }

  lemma TwoDotGroups(c: string, d: string)
    requires OctetText(c) && OctetText(d)
    ensures DotGroups("." + c + "." + d, 2)
  {
    DotGroupsStep(d, "", 1);
    DotAssoc(c, d, "");
    DotGroupsStep(c, "." + d, 2);
  }

  lemma DotAssoc(b: string, c: string, d: string)
    ensures "." + b + ("." + c + "." + d) == "." + b + "." + c + "." + d
    ensures "." + c + "" == "." + c && "." + b + ("." + c) == "." + b + "." + c
  {
  }

  lemma DotGroupsStep(o: string, rest: string, n: nat)
    requires OctetText(o) && n >= 1 && DotGroups(rest, n - 1)
    ensures DotGroups("." + o + rest, n)
  {
    var s := "." + o + rest;
    assert s[1..|o| + 1] == o && s[|o| + 1..] == rest;
  }

  /** The look-aheads, stated on the first two octets. */
  predicate ExcludedOctets(a: string, b: string) {
    a == "10" || a == "127" || (a == "169" && b == "254") || (a == "192" && b == "168") ||
    (a == "172" && Private172Second(b))
  }

  /** Two dot-joined pieces are equal exactly when their pieces are, given the first lengths agree. */
  lemma DotJoinEq(x: string, y: string, u: string, v: string)
    requires |x| == |u|
    ensures x + "." + y == u + "." + v <==> x == u && y == v
  {
    if x + "." + y == u + "." + v {
      assert x == (x + "." + y)[..|x|] && u == (u + "." + v)[..|u|];
      assert y == (x + "." + y)[|x| + 1..] && v == (u + "." + v)[|u| + 1..];
    }
  }

  /** A one-octet look-ahead `lit(?:\.\d{1,3}){n}` fits `a.…` exactly when `a` is `lit`. */
  lemma OneOctetPrefix(a: string, tail: string, lit: string, n: nat)
    requires AllDigits(a) && AllDigits(lit) && |lit| >= 1 && n >= 1
    requires |tail| >= 1 && tail[0] == '.' && DotGroups(tail, n)
    ensures StartsWith(a + tail, lit) && DotGroups((a + tail)[|lit|..], n) <==> a == lit
  {
    var h := a + tail;
    DigitsHaveNoDelimiters(a);
    DigitsHaveNoDelimiters(lit);
    assert forall k :: 0 <= k < |a| ==> h[k] == a[k];
    assert h[|a|] == '.';
    if |lit| < |a| {
      assert h[|lit|..][0] == a[|lit|];
    } else if |lit| > |a| {
      assert IsDigit(lit[|a|]);
      assert |lit| <= |h| ==> h[..|lit|][|a|] == '.';
    } else {
      assert h[..|lit|] == a;
      assert h[|lit|..] == tail;
    }
  }

  /** `a.rest` starts with `lit.` exactly when `a` is `lit`. */
  lemma OctetDot(a: string, rest: string, lit: string)
    requires AllDigits(a) && AllDigits(lit) && |lit| >= 1
    ensures StartsWith(a + "." + rest, lit + ".") <==> a == lit
  {
    var h := a + "." + rest;
    DigitsHaveNoDelimiters(a);
    DigitsHaveNoDelimiters(lit);
    assert forall k :: 0 <= k < |a| ==> h[k] == a[k];
    assert h[|a|] == '.';
    if |lit| < |a| {
      assert |lit| + 1 <= |h| ==> h[..|lit| + 1][|lit|] == a[|lit|];
    } else if |lit| > |a| {
      assert IsDigit(lit[|a|]);
      assert |lit| + 1 <= |h| ==> h[..|lit| + 1][|a|] == '.';
    } else {
      assert h[..|lit| + 1] == a + ".";
    }
  }

  /** A two-octet look-ahead `la.lb(?:\.\d{1,3}){2}` fits `a.b.…` exactly when `a` is `la` and `b` is `lb`. */
  lemma TwoOctetPrefix(a: string, b: string, tail: string, la: string, lb: string)
    requires AllDigits(a) && AllDigits(b) && AllDigits(la) && AllDigits(lb)
    requires |la| >= 1 && |lb| >= 1
    requires |tail| >= 1 && tail[0] == '.' && DotGroups(tail, 2)
    ensures var h := a + "." + b + tail; var lit := la + "." + lb;
      StartsWith(h, lit) && DotGroups(h[|lit|..], 2) <==> a == la && b == lb
  {
    var h := a + "." + b + tail;
    var lit := la + "." + lb;
    OctetDot(a, b + tail, la);
    assert h == a + "." + (b + tail);
    DotPrefix(h, la, lb);
    if a == la {
      AfterFirstOctet(la, b, tail, lb);
    }
  }

  lemma DotPrefix(h: string, la: string, lb: string)
    ensures StartsWith(h, la + "." + lb) ==> StartsWith(h, la + ".")
  {
    if StartsWith(h, la + "." + lb) {
      assert h[..|la| + 1] == (la + "." + lb)[..|la| + 1] == la + ".";
    }
  }

  /** Once the first octet agrees, a two-octet look-ahead is decided by the second. */
  lemma AfterFirstOctet(la: string, b: string, tail: string, lb: string)
    requires AllDigits(b) && AllDigits(lb) && |lb| >= 1
    requires |tail| >= 1 && tail[0] == '.' && DotGroups(tail, 2)
    ensures var h := la + "." + b + tail; var lit := la + "." + lb;
      StartsWith(h, lit) && DotGroups(h[|lit|..], 2) <==> b == lb
  {
    var h := la + "." + b + tail;
    var lit := la + "." + lb;
    var bt := b + tail;
    assert h == la + "." + bt;
    assert StartsWith(h, lit) <==> StartsWith(bt, lb) by {
      assert |lit| <= |h| <==> |lb| <= |bt|;
      if |lb| <= |bt| {
        assert h[..|lit|] == la + "." + bt[..|lb|];
        DotJoinEq(la, bt[..|lb|], la, lb);
      }
    }
    if StartsWith(bt, lb) {
      assert h[|lit|..] == bt[|lb|..];
    }
    OneOctetPrefix(b, tail, lb, 2);
  }

  /** The look-ahead for 172.16.0.0/12 fits `a.b.…` exactly when `a` is `172` and `b` is 16 to 31. */
  lemma Prefix172(a: string, b: string, tail: string)
    requires AllDigits(a) && OctetText(b)
    requires |tail| >= 1 && tail[0] == '.' && DotGroups(tail, 2)
    ensures var h := a + "." + b + tail;
      StartsWith(h, "172.") && |h| >= 6 && Private172Second(h[4..6]) && DotGroups(h[6..], 2)
      <==> a == "172" && Private172Second(b)
  {
    var h := a + "." + b + tail;
    OctetDot(a, b + tail, "172");
    assert h == a + "." + (b + tail);
    assert "172" + "." == "172.";
    if a == "172" {
      After172(b, tail);
    } else {
      assert !StartsWith(h, "172.");
    }
  }

  /** After `172.`, the look-ahead is decided by the second octet alone. */
  lemma After172(b: string, tail: string)
    requires OctetText(b)
    requires |tail| >= 1 && tail[0] == '.' && DotGroups(tail, 2)
    ensures var h := "172." + b + tail;
      |h| >= 6 && Private172Second(h[4..6]) && DotGroups(h[6..], 2) <==> Private172Second(b)
  {
    var h := "172." + b + tail;
    OctetDigits(b);
    assert h[4..] == b + tail;
    if |b| == 1 {
      assert h[4..6][1] == '.';
    } else if |b| == 2 {
      assert h[4..6] == b;
      assert h[6..] == tail;
    } else {
      assert h[6..][0] == b[2];
    }
  }

  /** The look-aheads reject `a.b.c.d` exactly on the excluded first two octets. */
  lemma ExcludedQuad(a: string, b: string, c: string, d: string)
    requires OctetText(a) && OctetText(b) && OctetText(c) && OctetText(d)
    ensures ExcludedAddress(Quad(a, b, c, d)) <==> ExcludedOctets(a, b)
  {
    QuadOne(a, b, c, d, "10");
    QuadOne(a, b, c, d, "127");
    assert "169" + "." + "254" == "169.254";
    QuadTwo(a, b, c, d, "169", "254");
    assert "192" + "." + "168" == "192.168";
    QuadTwo(a, b, c, d, "192", "168");
    Quad172(a, b, c, d);
  }

  lemma QuadOne(a: string, b: string, c: string, d: string, lit: string)
    requires OctetText(a) && OctetText(b) && OctetText(c) && OctetText(d)
    requires AllDigits(lit) && |lit| >= 1
    ensures var h := Quad(a, b, c, d);
      StartsWith(h, lit) && DotGroups(h[|lit|..], 3) <==> a == lit
  {
    var bcd := "." + b + "." + c + "." + d;
    DotGroupsOfOctets(b, c, d);
    QuadAssoc(a, b, c, d);
    OneOctetPrefix(a, bcd, lit, 3);
  }

  lemma QuadTwo(a: string, b: string, c: string, d: string, la: string, lb: string)
    requires OctetText(a) && OctetText(b) && OctetText(c) && OctetText(d)
    requires AllDigits(la) && AllDigits(lb) && |la| >= 1 && |lb| >= 1
    ensures var h := Quad(a, b, c, d); var lit := la + "." + lb;
      StartsWith(h, lit) && DotGroups(h[|lit|..], 2) <==> a == la && b == lb
  {
    var cd := "." + c + "." + d;
    DotGroupsOfOctets(b, c, d);
    QuadAssoc(a, b, c, d);
    TwoOctetPrefix(a, b, cd, la, lb);
  }

  lemma Quad172(a: string, b: string, c: string, d: string)
    requires OctetText(a) && OctetText(b) && OctetText(c) && OctetText(d)
    ensures var h := Quad(a, b, c, d);
      StartsWith(h, "172.") && |h| >= 6 && Private172Second(h[4..6]) && DotGroups(h[6..], 2)
      <==> a == "172" && Private172Second(b)
  {
    var cd := "." + c + "." + d;
    DotGroupsOfOctets(b, c, d);
    QuadAssoc(a, b, c, d);
    Prefix172(a, b, cd);
  }

  // ---------------------------------------------------------------------------
  // The IPv4 rule on octet values

  /** The ranges the look-aheads keep out: 10/8, 127/8, 169.254/16, 192.168/16, 172.16/12. */
  predicate PrivateRange(x: int, y: int) {
    x == 10 || x == 127 || (x == 169 && y == 254) || (x == 192 && y == 168) ||
    (x == 172 && 16 <= y <= 31)
  }

  /** The first octet is 1 to 223, written without a leading zero. */
  lemma FirstOctetValue(o: string)
    requires OctetText(o)
    ensures FirstOctet(o) <==> o[0] != '0' && 1 <= Val(o) <= 223
  {
    OctetDigits(o);
  }

  /** A middle octet is 0 to 255; only a three-digit one may not start with a zero. */
  lemma MiddleOctetValue(o: string)
    requires OctetText(o)
    ensures MiddleOctet(o) <==> (|o| == 3 ==> o[0] != '0') && Val(o) <= 255
  {
    OctetDigits(o);
  }

  /** The last octet is 1 to 254, written without a leading zero. */
  lemma LastOctetValue(o: string)
    requires OctetText(o)
    ensures LastOctet(o) <==> o[0] != '0' && 1 <= Val(o) <= 254
  {
    OctetDigits(o);
  }

  lemma DecimalUnique(x: int, y: int, z: int, u: int, v: int, w: int)
    requires 0 <= x <= 9 && 0 <= y <= 9 && 0 <= z <= 9
    requires 0 <= u <= 9 && 0 <= v <= 9 && 0 <= w <= 9
    ensures 100 * x + 10 * y + z == 100 * u + 10 * v + w <==> x == u && y == v && z == w
    ensures 10 * y + z == 10 * v + w <==> y == v && z == w
  {
  }

  /** Digit strings of one length are equal exactly when their digit values are. */
  lemma SameDigits(o: string, lit: string)
    requires |o| == |lit|
    requires forall k :: 0 <= k < |o| ==> IsDigit(o[k]) && IsDigit(lit[k])
    ensures o == lit <==> forall k :: 0 <= k < |o| ==> DigitValue(o[k]) == DigitValue(lit[k])
  {
    if forall k :: 0 <= k < |o| ==> DigitValue(o[k]) == DigitValue(lit[k]) {
      assert forall k :: 0 <= k < |o| ==> o[k] as int == lit[k] as int;
      assert forall k :: 0 <= k < |o| ==> o[k] == lit[k];
    }
  }

  /** An octet text without a leading zero equals a literal exactly when the values agree. */
  lemma OctetIs(o: string, lit: string)
    requires OctetText(o) && OctetText(lit) && o[0] != '0' && lit[0] != '0'
    ensures o == lit <==> Val(o) == Val(lit)
  {
    OctetDigits(o);
    OctetDigits(lit);
    if |o| == |lit| == 1 {
      SameDigits(o, lit);
    } else if |o| == |lit| == 2 {
      SameDigits(o, lit);
      DecimalUnique(0, DigitValue(o[0]), DigitValue(o[1]), 0, DigitValue(lit[0]), DigitValue(lit[1]));
    } else if |o| == |lit| == 3 {
      SameDigits(o, lit);
      DecimalUnique(DigitValue(o[0]), DigitValue(o[1]), DigitValue(o[2]),
                    DigitValue(lit[0]), DigitValue(lit[1]), DigitValue(lit[2]));
    }
  }

  lemma LiteralValues()
    ensures Val("10") == 10 && Val("127") == 127 && Val("169") == 169
    ensures Val("192") == 192 && Val("172") == 172 && Val("254") == 254 && Val("168") == 168
  {
    OctetDigits("10");
    OctetDigits("127");
    OctetDigits("169");
    OctetDigits("192");
    OctetDigits("172");
    OctetDigits("254");
    OctetDigits("168");
  }

  /** The first-octet literals of the look-aheads, as values. */
  lemma FirstOctetLiterals(a: string)
    requires OctetText(a) && a[0] != '0'
    ensures a == "10" <==> Val(a) == 10
    ensures a == "127" <==> Val(a) == 127
    ensures a == "169" <==> Val(a) == 169
    ensures a == "192" <==> Val(a) == 192
    ensures a == "172" <==> Val(a) == 172
  {
    LiteralValues();
    OctetIs(a, "10");
    OctetIs(a, "127");
    OctetIs(a, "169");
    OctetIs(a, "192");
    OctetIs(a, "172");
  }

  /** The second-octet literals and the 172.16/12 range, as values. */
  lemma SecondOctetLiterals(b: string)
    requires OctetText(b) && MiddleOctet(b)
    ensures b == "254" <==> Val(b) == 254
    ensures b == "168" <==> Val(b) == 168
    ensures Private172Second(b) <==> 16 <= Val(b) <= 31
  {
    OctetDigits(b);
    if |b| == 3 {
      LiteralValues();
      OctetIs(b, "254");
      OctetIs(b, "168");
      assert !Private172Second(b);
    } else {
      assert Val(b) <= 99;
      assert b != "254" && b != "168";
    }
  }

  /** On well-formed leading octets, the look-aheads exclude exactly the private ranges. */
  lemma ExcludedOctetsValue(a: string, b: string)
    requires OctetText(a) && OctetText(b) && FirstOctet(a) && MiddleOctet(b)
    ensures ExcludedOctets(a, b) <==> PrivateRange(Val(a), Val(b))
  {
    FirstOctetLiterals(a);
    SecondOctetLiterals(b);
  }

  /** `a.b.c.d` is a host exactly when it is a well-formed dotted quad the look-aheads let through. */
  lemma QuadHost(a: string, b: string, c: string, d: string)
    requires OctetText(a) && OctetText(b) && OctetText(c) && OctetText(d)
    ensures var h := Quad(a, b, c, d);
      Host(h, h) <==>
        (!ExcludedOctets(a, b) && FirstOctet(a) && MiddleOctet(b) && MiddleOctet(c) && LastOctet(d))
  {
    var h := Quad(a, b, c, d);
    QuadSplit(a, b, c, d);
    ExcludedQuad(a, b, c, d);
    assert Names(h) == [a, b, c, d];
    OctetDigits(d);
    assert !IsLetter(d[0]);
    assert !TopLevel(d);
    assert !HostName(h);
  }

  /** Behind `http://`, a dotted quad with nothing after it is judged by the host rule alone. */
  lemma QuadUrl(a: string, b: string, c: string, d: string)
    requires OctetText(a) && OctetText(b) && OctetText(c) && OctetText(d)
    ensures var h := Quad(a, b, c, d); ValidUrl("http://" + h) <==> Host(h, h)
  {
    var h := Quad(a, b, c, d);
    QuadAlphabet(a, b, c, d);
    assert NoDelimiters(h);
    assert '@' !in h + "" by {
      assert h + "" == h;
      assert forall k :: 0 <= k < |h| ==> h[k] != '@';
    }
    HttpHostRule(h, "");
    assert "http://" + h + "" == "http://" + h;
    assert h + "" == h;
    assert PortThenPath("") by {
      assert Port(""[..0]) && PathPart(""[0..]);
    }
  }

  /**
   * The dotted-quad rule: `http://a.b.c.d` is accepted exactly when the first
   * octet is 1 to 223, the middle ones 0 to 255 and the last 1 to 254, with no
   * leading zero except in a one- or two-digit middle octet, and the address
   * lies outside 10/8, 127/8, 169.254/16, 192.168/16 and 172.16/12.
   */
  lemma IPv4Rule(a: string, b: string, c: string, d: string)
    requires OctetText(a) && OctetText(b) && OctetText(c) && OctetText(d)
    ensures ValidUrl("http://" + Quad(a, b, c, d)) <==>
      && a[0] != '0' && 1 <= Val(a) <= 223
      && (|b| == 3 ==> b[0] != '0') && Val(b) <= 255
      && (|c| == 3 ==> c[0] != '0') && Val(c) <= 255
      && d[0] != '0' && 1 <= Val(d) <= 254
      && !PrivateRange(Val(a), Val(b))
  {
    QuadUrl(a, b, c, d);
    QuadHost(a, b, c, d);
    FirstOctetValue(a);
    MiddleOctetValue(b);
    MiddleOctetValue(c);
    LastOctetValue(d);
    if FirstOctet(a) && MiddleOctet(b) {
      ExcludedOctetsValue(a, b);
    }
  }

  // ---------------------------------------------------------------------------
  // Examples
  //
  // Each example takes its URL as a parameter fixed by `requires u == "..."`
  // rather than stating `ValidUrl` of the literal itself: the verifier
  // unfolds a predicate applied to a literal string without bound. For the
  // same reason, the equalities between a literal and its pieces are stated
  // in small lemmas of their own (`GoogleSplit`, `GoogleUrlParts`,
  // `SearchUrlParts`, `EightQuadText`), away from the rest of the proof.

  /** A piece without dots splits off as one field. */
  lemma SplitPiece(a: string, rest: string)
    requires forall k :: 0 <= k < |a| ==> a[k] != '.'
    ensures Split(a) == [a]
    ensures Split(a + "." + rest) == [a] + Split(rest)
  {
    var s := a + "." + rest;
    assert forall k :: 0 <= k < |a| ==> s[k] == a[k];
    assert s[|a|] == '.';
    assert IndexOfDot(s) == |a|;
    assert s[..|a|] == a && s[|a| + 1..] == rest;
  }

  /** Behind `http://`, a host name followed by a port and path introducer is accepted. */
  lemma HostNameAccepted(x: string, tail: string)
    requires HostName(x) && '@' !in x && '@' !in tail
    requires tail == [] || IsDelimiter(tail[0])
    requires PortThenPath(tail)
    ensures ValidUrl("http://" + x + tail)
  {
    HostHasNoDelimiters(x, x);
    assert '@' !in x + tail;
    HttpHostRule(x, tail);
  }

  /** Two labels and a top-level domain, joined by dots, form a host name. */
  lemma SplitThree(l1: string, l2: string, tld: string)
    requires forall k :: 0 <= k < |l1| ==> l1[k] != '.'
    requires forall k :: 0 <= k < |l2| ==> l2[k] != '.'
    requires forall k :: 0 <= k < |tld| ==> tld[k] != '.'
    ensures Split(l1 + "." + (l2 + "." + tld)) == [l1, l2, tld]
  {
    SplitPiece(tld, "");
    SplitPiece(l2, tld);
    SplitPiece(l1, l2 + "." + tld);
  }

  lemma ThreeNames(l1: string, l2: string, tld: string)
    requires Label(l1) && Label(l2) && TopLevel(tld)
    requires forall k :: 0 <= k < |l1| ==> l1[k] != '.'
    requires forall k :: 0 <= k < |l2| ==> l2[k] != '.'
    requires forall k :: 0 <= k < |tld| ==> tld[k] != '.'
    ensures HostName(l1 + "." + (l2 + "." + tld))
  {
    SplitThree(l1, l2, tld);
    var names := Names(l1 + "." + (l2 + "." + tld));
    assert names == [l1, l2, tld];
    assert Label(names[0]) && Label(names[1]);
  }

  lemma GoogleHost(x: string)
    requires x == "www.google.com"
    ensures HostName(x) && '@' !in x
  {
    var com, google, www := "com", "google", "www";
    LettersAreHostChars(www);
    LettersAreHostChars(google);
    assert Label(www) && Label(google) && TopLevel(com);
    ThreeNames(www, google, com);
    GoogleSplit(x);
  }

  /** The literal host as its three names (see the note on examples). */
  lemma GoogleSplit(x: string)
    requires x == "www.google.com"
    ensures x == "www" + "." + ("google" + "." + "com")
  {
  }

  /** The address of the API documentation example is accepted. */
  lemma GoogleAccepted(u: string)
    requires u == "http://www.google.com"
    ensures ValidUrl(u)
  {
    var x := "www.google.com";
    GoogleHost(x);
    assert PortThenPath("") by {
      assert Port(""[..0]) && PathPart(""[0..]);
    }
    HostNameAccepted(x, "");
    GoogleUrlParts(u);
  }

  /** The literal URL as scheme, host and empty tail (see the note on examples). */
  lemma GoogleUrlParts(u: string)
    requires u == "http://www.google.com"
    ensures u == "http://" + "www.google.com" + ""
  {
  }

  /** A port of two to five digits and a path may follow the host. */
  lemma PortAndPathAccepted(u: string)
    requires u == "http://www.google.com:8080/a"
    ensures ValidUrl(u)
  {
    var x := "www.google.com";
    var tail := ":8080/a";
    GoogleHost(x);
    SearchTail(tail);
    HostNameAccepted(x, tail);
    SearchUrlParts(u);
  }

  lemma SearchTail(t: string)
    requires t == ":8080/a"
    ensures IsDelimiter(t[0]) && '@' !in t && PortThenPath(t)
  {
    var port, path := ":8080", "/a";
    assert AllDigits("8080") && port[1..] == "8080";
    assert t[..5] == port && t[5..] == path;
    assert Port(t[..5]) && PathPart(t[5..]);
  }

  /** The literal URL as scheme, host and port-and-path tail (see the note on examples). */
  lemma SearchUrlParts(u: string)
    requires u == "http://www.google.com:8080/a"
    ensures u == "http://" + "www.google.com" + ":8080/a"
  {
  }

  /** A host without a dot is neither a dotted quad nor a host name. */
  lemma OneNameRejected(x: string)
    requires NoDelimiters(x) && '@' !in x
    requires forall k :: 0 <= k < |x| ==> x[k] != '.'
    ensures !ValidUrl("http://" + x)
  {
    SplitPiece(x, "");
    assert !Host(x + "", x);
    assert x + "" == x && "http://" + x + "" == "http://" + x;
    HttpHostRule(x, "");
  }

  /** A bare host name without a top-level domain is rejected. */
  lemma LocalhostRejected(u: string)
    requires u == "http://localhost"
    ensures !ValidUrl(u)
  {
    var x := "localhost";
    assert NoDelimiters(x) && '@' !in x;
    OneNameRejected(x);
    assert "http://" + x == u;
  }

  /** The octet `8`: one digit, no leading zero, value 8. */
  lemma EightOctet(o: string)
    requires o == "8"
    ensures OctetText(o) && o[0] != '0' && Val(o) == 8
  {
    OctetDigits(o);
  }

  /** The literal URL as `http://` and a quad of one octet (see the note on examples). */
  lemma EightQuadText(o: string, u: string)
    requires o == "8" && u == "http://8.8.8.8"
    ensures u == "http://" + Quad(o, o, o, o)
  {
  }

  /** The public address 8.8.8.8 is accepted. */
  lemma PublicAddressAccepted(u: string)
    requires u == "http://8.8.8.8"
    ensures ValidUrl(u)
  {
    var o := "8";
    EightOctet(o);
    IPv4Rule(o, o, o, o);
    EightQuadText(o, u);
  }

  /** The private address 192.168.1.1 is rejected. */
  lemma PrivateAddressRejected(u: string)
    requires u == "http://192.168.1.1"
    ensures !ValidUrl(u)
  {
    LiteralValues();
    OctetDigits("1");
    IPv4Rule("192", "168", "1", "1");
    assert "http://" + Quad("192", "168", "1", "1") == u;
  }

  /** The broadcast-looking last octet 255 is rejected. */
  lemma LastOctetRejected(u: string)
    requires u == "http://8.8.8.255"
    ensures !ValidUrl(u)
  {
    OctetDigits("8");
    OctetDigits("255");
    IPv4Rule("8", "8", "8", "255");
    assert "http://" + Quad("8", "8", "8", "255") == u;
  }
}
