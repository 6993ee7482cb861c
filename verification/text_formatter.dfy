/**
 * The plain-text to HTML formatter used to show email bodies. Each step of
 * the fixed chain is its own function on strings: HTML escaping, separator
 * lines, URL links, email links, line breaks, and the collapse of long runs
 * of breaks. Each regular expression becomes a left-to-right scanner that
 * tries a match at every position, as PCRE does, with the same greedy
 * extents. Characters stand for bytes.
 */
module TextFormatter {
  import opened Wrappers
  import opened PhpText

  /** The length of the longest prefix of s whose characters all satisfy p. */
  function Run(s: string, p: char -> bool): (n: nat)
    ensures n <= |s|
    ensures forall i :: 0 <= i < n ==> p(s[i])
    ensures n < |s| ==> !p(s[n])
  {
    if s != [] && p(s[0]) then 1 + Run(s[1..], p) else 0
  }

  /** The run is the one length with p holding before it and failing at it. */
  lemma RunIs(s: string, p: char -> bool, k: nat)
    requires k <= |s|
    requires forall i :: 0 <= i < k ==> p(s[i])
    requires k < |s| ==> !p(s[k])
    ensures Run(s, p) == k
  {
  }

  /** A needle found in a suffix is found in the whole string. */
  lemma {:induction false} ContainsSuffix(s: string, k: nat, needle: string)
    requires k <= |s|
    requires Contains(s[k..], needle)
    ensures Contains(s, needle)
    decreases k
  {
    if k > 0 {
      assert s[1..][k - 1..] == s[k..];
      ContainsSuffix(s[1..], k - 1, needle);
    }
  }

  // ---------------------------------------------------------------------
  // htmlspecialchars($text, ENT_QUOTES)

  function EscapeChar(c: char): (r: string)
    ensures c !in "&<>\"'" ==> r == [c]
    ensures '<' !in r && '>' !in r && '"' !in r && '\'' !in r
  {
    match c
    case '&' => "&amp;"
    case '"' => "&quot;"
    case '\'' => "&#039;"
    case '<' => "&lt;"
    case '>' => "&gt;"
    case _ => [c]
  }

  /** Every special character is replaced by its entity, so none of `< > " '` is left. */
  function EscapeHtml(s: string): (r: string)
    ensures '<' !in r && '>' !in r && '"' !in r && '\'' !in r
    ensures |r| >= |s|
  {
    if s == [] then [] else EscapeChar(s[0]) + EscapeHtml(s[1..])
  }

  /** None of the five characters htmlspecialchars replaces. */
  predicate NoSpecials(s: string) {
    '&' !in s && '<' !in s && '>' !in s && '"' !in s && '\'' !in s
  }

  /** Text without a special character is its own escape. */
  lemma {:induction false} EscapeKeepsPlainText(s: string)
    requires NoSpecials(s)
    ensures EscapeHtml(s) == s
    decreases |s|
  {
    if s != [] {
      assert s[0] in s;
      assert forall c :: c in s[1..] ==> c in s;
      EscapeKeepsPlainText(s[1..]);
    }
  }

  /** The character an entity or a plain character at the start of s stands for, and its length. */
  function EntityAt(s: string): (r: (char, nat))
    requires s != []
    ensures 1 <= r.1 <= |s|
  {
    if IsPrefix("&amp;", s) then ('&', 5)
    else if IsPrefix("&quot;", s) then ('"', 6)
    else if IsPrefix("&#039;", s) then ('\'', 6)
    else if IsPrefix("&lt;", s) then ('<', 4)
    else if IsPrefix("&gt;", s) then ('>', 4)
    else (s[0], 1)
  }

  /** Reading the five entities back, as a browser does. */
  function UnescapeHtml(s: string): string
    decreases |s|
  {
    if s == [] then [] else [EntityAt(s).0] + UnescapeHtml(s[EntityAt(s).1..])
  }

  /** An escaped character is read back as itself, whatever follows it. */
  lemma EntityAtEscape(c: char, rest: string)
    ensures EntityAt(EscapeChar(c) + rest) == (c, |EscapeChar(c)|)
  {
    var t := EscapeChar(c) + rest;
    if c !in "&<>\"'" {
      assert t[0] == c;
    } else {
      var e := EscapeChar(c);
      assert t[..|e|] == e;
      assert t[0] == '&' && t[1] == e[1];
      if c != '&' {
        assert !IsPrefix("&amp;", t) by {
          assert |t| >= 5 ==> t[..5][1] == t[1];
        }
      }
    }
  }

  /** Escaping loses nothing: the shown text reads back as the original. */
  lemma {:induction false} UnescapeEscape(s: string)
    ensures UnescapeHtml(EscapeHtml(s)) == s
  {
    if s != [] {
      UnescapeEscape(s[1..]);
      var e := EscapeChar(s[0]);
      EntityAtEscape(s[0], EscapeHtml(s[1..]));
      assert (e + EscapeHtml(s[1..]))[|e|..] == EscapeHtml(s[1..]);
      assert s == [s[0]] + s[1..];
    }
  }

  // ---------------------------------------------------------------------
  // preg_replace('/^-{5,}$/m', <hr>, $text): with LF as the newline, a match
  // is exactly one whole line of five or more dashes.

  predicate IsRuleLine(l: string) {
    |l| >= 5 && forall i :: 0 <= i < |l| ==> l[i] == '-'
  }

  function LineEnd(s: string): (n: nat)
    ensures n <= |s|
    ensures forall i :: 0 <= i < n ==> s[i] != '\n'
    ensures n < |s| ==> s[n] == '\n'
  {
    Run(s, c => c != '\n')
  }

  /** The `/m` replacement, line by line; a single line is replaced when it is all dashes. */
  function Separators(s: string, hr: string): (r: string)
    ensures '\n' !in s ==> r == if IsRuleLine(s) then hr else s
    decreases |s|
  {
    var n := LineEnd(s);
    var line := if IsRuleLine(s[..n]) then hr else s[..n];
    assert '\n' !in s ==> n == |s| && s[..n] == s;
    if n == |s| then line else line + "\n" + Separators(s[n + 1..], hr)
  }

  /**
   * Each line is handled on its own: a line of five or more dashes becomes
   * the tag, any other line is kept, and the rest of the text follows.
   */
  lemma SeparatorsLine(l: string, rest: string, hr: string)
    requires '\n' !in l
    ensures Separators(l + "\n" + rest, hr) == (if IsRuleLine(l) then hr else l) + "\n" + Separators(rest, hr)
  {
    var s := l + "\n" + rest;
    assert LineEnd(s) == |l| by {
      assert forall i :: 0 <= i < |l| ==> s[i] == l[i];
      assert s[|l|] == '\n';
    }
    assert s[..|l|] == l && s[|l| + 1..] == rest;
  }

  lemma RuleLineContainsDashes(s: string, n: nat)
    requires n <= |s| && IsRuleLine(s[..n])
    ensures Contains(s, "-----")
  {
    assert forall i :: 0 <= i < 5 ==> s[..n][i] == '-';
    assert s[..5] == "-----";
  }

  /** Text without five dashes in a row keeps every line as it was. */
  lemma {:induction false} SeparatorsKeepPlainText(s: string, hr: string)
    requires !Contains(s, "-----")
    ensures Separators(s, hr) == s
    decreases |s|
  {
    var n := LineEnd(s);
    if IsRuleLine(s[..n]) {
      RuleLineContainsDashes(s, n);
      assert false;
    }
    if n < |s| {
      if Contains(s[n + 1..], "-----") {
        ContainsSuffix(s, n + 1, "-----");
      }
      SeparatorsKeepPlainText(s[n + 1..], hr);
      assert s == s[..n] + "\n" + s[n + 1..];
    }
  }

  /**
   * A separator in CRLF text is left alone: the carriage return stays on
   * the line, so the line is not dashes only.
   */
  lemma CrlfSeparatorNotConverted(hr: string)
    ensures Separators("-----\r\nbye", hr) == "-----\r\nbye"
  {
    var s := "-----\r\nbye";
    assert LineEnd(s) == 6 by {
      assert s[6] == '\n';
      assert forall i :: 0 <= i < 6 ==> s[i] != '\n';
    }
    assert !IsRuleLine(s[..6]) by {
      assert s[..6][5] == '\r';
    }
    assert s[7..] == "bye";
    assert LineEnd("bye") == 3;
    assert "bye"[..3] == "bye";
  }

  // ---------------------------------------------------------------------
  // preg_replace_callback('/(https?:\/\/[^\s<]+)/', ...): the URL runs to the
  // next whitespace or '<'; trailing `.,;:!?)` are cut off and dropped.

  /** PCRE's `\s`. */
  predicate IsSpace(c: char) {
    c in {' ', '\t', '\n', '\r', '\U{B}', '\U{C}'}
  }

  predicate UrlChar(c: char) {
    !IsSpace(c) && c != '<'
  }

  /** The length of the `https?:\/\/` at the start of s, or 0. */
  function SchemeLength(s: string): nat {
    if IsPrefix("https://", s) then 8 else if IsPrefix("http://", s) then 7 else 0
  }

  /** The length of the URL match at the start of s, if there is one. */
  function UrlMatch(s: string): (r: Option<nat>)
    ensures r.Some? ==> 8 <= r.value <= |s| && IsPrefix("http", s)
    ensures r.Some? ==> forall i :: 4 <= i < r.value ==> UrlChar(s[i])
    ensures r.Some? ==> r.value == |s| || !UrlChar(s[r.value])
  {
    var scheme := SchemeLength(s);
    if scheme > 0 && scheme < |s| && UrlChar(s[scheme]) then
      SchemeIsHttp(s);
      var n := scheme + Run(s[scheme..], UrlChar);
      assert forall i :: scheme <= i < n ==> s[i] == s[scheme..][i - scheme];
      Some(n)
    else None
  }

  /** Both schemes start with "http" and are at least seven characters long. */
  lemma SchemeIsHttp(s: string)
    requires SchemeLength(s) > 0
    ensures IsPrefix("http", s) && 7 <= SchemeLength(s) <= 8
    ensures forall i :: 4 <= i < SchemeLength(s) ==> UrlChar(s[i])
  {
    var n := SchemeLength(s);
    assert s[..4] == s[..n][..4];
    forall i | 4 <= i < n
      ensures UrlChar(s[i])
    {
      assert s[i] == s[..n][i];
    }
  }

  /** A whole URL token: the scheme, then at least one character the pattern allows. */
  predicate UrlToken(u: string) {
    SchemeLength(u) > 0 && SchemeLength(u) < |u| && forall i :: SchemeLength(u) <= i < |u| ==> UrlChar(u[i])
  }

  /** A URL token followed by a character the pattern stops at is matched whole. */
  lemma UrlMatchOfToken(u: string, q: string)
    requires UrlToken(u)
    requires q == [] || !UrlChar(q[0])
    ensures UrlMatch(u + q) == Some(|u|)
  {
    var s := u + q;
    var n := SchemeLength(u);
    assert s[..n] == u[..n];
    assert s[..7] == u[..7];
    assert SchemeLength(s) == n;
    assert u[n] == s[n];
    var t := s[n..];
    forall i | 0 <= i < |u| - n
      ensures UrlChar(t[i])
    {
      assert t[i] == u[n + i];
    }
    assert |u| - n < |t| ==> t[|u| - n] == q[0];
    RunIs(t, UrlChar, |u| - n);
  }

  const UrlTrailing: set<char> := {'.', ',', ';', ':', '!', '?', ')'}

  /** `rtrim($url, '.,;:!?)')`: the scheme always survives. */
  function TrimUrl(url: string): (r: string)
    requires IsPrefix("http://", url) || IsPrefix("https://", url)
    ensures IsPrefix(r, url) && |r| >= 6
    ensures r[|r| - 1] !in UrlTrailing
  {
    assert url[5] == '/' || url[6] == '/';
    TrimRightOf(url, UrlTrailing)
  }

  function UrlAnchor(url: string, cls: string): string {
    "<a href=\"" + url + "\" target=\"_blank\"" + " rel=\"noopener noreferrer\"" + " class=\"" + cls + "\">" + url + "</a>"
  }

  function LinkUrls(s: string, cls: string): string
    decreases |s|
  {
    if s == [] then []
    else match UrlMatch(s)
      case Some(n) => UrlAnchor(TrimUrl(s[..n]), cls) + LinkUrls(s[n..], cls)
      case None => [s[0]] + LinkUrls(s[1..], cls)
  }

  /** Text that never says "http" is left as it is. */
  lemma {:induction false} LinkUrlsKeepPlainText(s: string, cls: string)
    requires !Contains(s, "http")
    ensures LinkUrls(s, cls) == s
    decreases |s|
  {
    if s != [] {
      LinkUrlsKeepPlainText(s[1..], cls);
    }
  }

  /**
   * Text without "http" in front of a URL is copied as it is: no match can
   * start inside it, not even one that runs on into the URL.
   */
  lemma {:induction false} LinkUrlsPlainPrefix(p: string, t: string, cls: string)
    requires !Contains(p, "http") && IsPrefix("http", t)
    ensures LinkUrls(p + t, cls) == p + LinkUrls(t, cls)
    decreases |p|
  {
    if p == [] {
      assert p + t == t;
    } else {
      LinkUrlsSkipsFirst(p, t, cls);
      LinkUrlsPlainPrefix(p[1..], t, cls);
      ConsAppend(p, LinkUrls(t, cls));
    }
  }

  /** Putting the first character back in front. */
  lemma ConsAppend(p: string, x: string)
    requires p != []
    ensures [p[0]] + (p[1..] + x) == p + x
  {
  }

  lemma LinkUrlsSkipsFirst(p: string, t: string, cls: string)
    requires p != [] && !Contains(p, "http") && IsPrefix("http", t)
    ensures LinkUrls(p + t, cls) == [p[0]] + LinkUrls(p[1..] + t, cls)
    ensures !Contains(p[1..], "http")
  {
    NoUrlBefore(p, t);
    assert (p + t)[0] == p[0] && (p + t)[1..] == p[1..] + t;
  }

  /** No URL match starts inside text without "http" that is followed by "http". */
  lemma NoUrlBefore(p: string, t: string)
    requires p != [] && !Contains(p, "http") && IsPrefix("http", t)
    ensures UrlMatch(p + t).None?
  {
    var s := p + t;
    assert t[0] == 'h' by {
      assert t[..4][0] == t[0];
    }
    if |p| >= 4 {
      assert s[..4] == p[..4];
    } else {
      assert s[|p|] == t[0];
      assert "http"[|p|] != 'h';
    }
  }

  /**
   * A URL in running text becomes one anchor on the URL without its trailing
   * punctuation; the text before it is kept and the text after it is
   * scanned on its own.
   */
  lemma UrlLinked(p: string, u: string, q: string, cls: string)
    requires !Contains(p, "http")
    requires UrlToken(u)
    requires q == [] || !UrlChar(q[0])
    ensures LinkUrls(p + u + q, cls) == p + UrlAnchor(TrimUrl(u), cls) + LinkUrls(q, cls)
  {
    assert IsPrefix("http", u + q) by {
      assert (u + q)[..4] == u[..4];
      assert u[..4] == u[..7][..4];
    }
    LinkUrlsPlainPrefix(p, u + q, cls);
    UrlLinkedAtStart(u, q, cls);
    Regroup(p, u, q, UrlAnchor(TrimUrl(u), cls), LinkUrls(q, cls));
  }

  /** A URL token at the start is matched whole, linked, and the scan resumes after it. */
  lemma UrlLinkedAtStart(u: string, q: string, cls: string)
    requires UrlToken(u)
    requires q == [] || !UrlChar(q[0])
    ensures LinkUrls(u + q, cls) == UrlAnchor(TrimUrl(u), cls) + LinkUrls(q, cls)
  {
    UrlMatchOfToken(u, q);
    assert (u + q)[..|u|] == u && (u + q)[|u|..] == q;
  }

  lemma Regroup(p: string, u: string, q: string, a: string, l: string)
    ensures p + u + q == p + (u + q)
    ensures p + (a + l) == p + a + l
  {
  }

  /**
   * Punctuation right after a URL is matched with it, then cut off by the
   * trim and dropped: it reaches neither the link nor the output.
   */
  lemma TrailingPunctuationDropped(u: string, c: char, q: string, cls: string)
    requires UrlToken(u) && u[|u| - 1] !in UrlTrailing
    requires c in UrlTrailing
    requires q == [] || !UrlChar(q[0])
    ensures LinkUrls(u + [c] + q, cls) == UrlAnchor(u, cls) + LinkUrls(q, cls)
  {
    var v := u + [c];
    assert UrlToken(v) by {
      assert v[..|u|] == u;
      assert IsPrefix("http://", u) ==> v[..7] == u[..7];
      assert IsPrefix("https://", u) ==> v[..8] == u[..8];
      assert SchemeLength(v) == SchemeLength(u);
    }
    UrlLinkedAtStart(v, q, cls);
    assert TrimUrl(v) == u by {
      assert v[..|v| - 1] == u;
    }
  }

  // ---------------------------------------------------------------------
  // preg_replace('/([a-zA-Z0-9._%+-]+@[a-zA-Z0-9.-]+\.[a-zA-Z]{2,})/', ...)

  predicate Letter(c: char) {
    'a' <= c <= 'z' || 'A' <= c <= 'Z'
  }

  predicate LocalChar(c: char) {
    Letter(c) || '0' <= c <= '9' || c in {'.', '_', '%', '+', '-'}
  }

  predicate DomainChar(c: char) {
    Letter(c) || '0' <= c <= '9' || c == '.' || c == '-'
  }

  /** A '.' at j followed by two letters: where the top-level domain can start. */
  predicate DotBeforeTld(t: string, j: nat) {
    j + 2 < |t| && t[j] == '.' && Letter(t[j + 1]) && Letter(t[j + 2])
  }

  /**
   * The greedy domain part gives back characters one at a time, so the dot
   * chosen is the last one below m that has two letters after it.
   */
  function TldDot(t: string, m: nat): (r: Option<nat>)
    ensures r.Some? ==> 1 <= r.value < m && DotBeforeTld(t, r.value)
    ensures r.Some? ==> forall j :: r.value < j < m ==> !DotBeforeTld(t, j)
    ensures r.None? ==> forall j :: 1 <= j < m ==> !DotBeforeTld(t, j)
    decreases m
  {
    if m <= 1 then None
    else if DotBeforeTld(t, m - 1) then Some(m - 1)
    else TldDot(t, m - 1)
  }

  /** The length of the address match at the start of s, if there is one. */
  function EmailMatch(s: string): (r: Option<nat>)
    ensures r.Some? ==> 0 < r.value <= |s| && '@' in s
    ensures r.Some? ==> var l := Run(s, LocalChar); 0 < l < r.value && s[l] == '@'
    ensures r.Some? ==> Letter(s[r.value - 1]) && Letter(s[r.value - 2]) && (r.value == |s| || !Letter(s[r.value]))
  {
    var l := Run(s, LocalChar);
    if l == 0 || l == |s| || s[l] != '@' then None
    else
      var t := s[l + 1..];
      var dot := TldDot(t, Run(t, DomainChar));
      if dot.None? then None
      else Some(l + 1 + dot.value + 1 + Run(t[dot.value + 1..], Letter))
  }

  function MailAnchor(address: string, cls: string): string {
    "<a href=\"mailto:" + address + "\" class=\"" + cls + "\">" + address + "</a>"
  }

  function LinkEmails(s: string, cls: string): string
    decreases |s|
  {
    if s == [] then []
    else match EmailMatch(s)
      case Some(n) => MailAnchor(s[..n], cls) + LinkEmails(s[n..], cls)
      case None => [s[0]] + LinkEmails(s[1..], cls)
  }

  /** Text without an '@' is left as it is. */
  lemma {:induction false} LinkEmailsKeepPlainText(s: string, cls: string)
    requires '@' !in s
    ensures LinkEmails(s, cls) == s
    decreases |s|
  {
    if s != [] {
      LinkEmailsKeepPlainText(s[1..], cls);
    }
  }

  /** An address: a local part, '@', a domain, a dot and a top-level domain of two or more letters. */
  predicate AddressParts(local: string, domain: string, tld: string) {
    && local != [] && (forall i :: 0 <= i < |local| ==> LocalChar(local[i]))
    && domain != [] && (forall i :: 0 <= i < |domain| ==> DomainChar(domain[i]))
    && |tld| >= 2 && (forall i :: 0 <= i < |tld| ==> Letter(tld[i]))
  }

  function Address(local: string, domain: string, tld: string): string {
    local + "@" + domain + "." + tld
  }

  /** An address followed by a character the domain cannot hold is matched whole. */
  lemma EmailMatchOfAddress(local: string, domain: string, tld: string, q: string)
    requires AddressParts(local, domain, tld)
    requires q == [] || !DomainChar(q[0])
    ensures EmailMatch(Address(local, domain, tld) + q) == Some(|Address(local, domain, tld)|)
  {
    var a := Address(local, domain, tld);
    var s := a + q;
    LocalPartRun(local, domain, tld, q);
    AddressDomainRuns(local, domain, tld, q);
    EmailMatchOfParts(s, |local|, |domain|, |tld|, |a|);
    SomeOfValue(EmailMatch(s), |a|);
  }

  /** Over an address, the domain run reaches past the top-level domain and the dot before it is chosen. */
  lemma AddressDomainRuns(local: string, domain: string, tld: string, q: string)
    requires AddressParts(local, domain, tld)
    requires q == [] || !DomainChar(q[0])
    ensures var t := (Address(local, domain, tld) + q)[|local| + 1..];
      TldDot(t, Run(t, DomainChar)) == Some(|domain|) && Run(t[|domain| + 1..], Letter) == |tld|
  {
    LocalPartRun(local, domain, tld, q);
    DomainPartRuns(domain, tld, q);
  }

  lemma SomeOfValue(o: Option<nat>, n: nat)
    requires o.Some? && o.value == n
    ensures o == Some(n)
  {
  }

  /** EmailMatch unfolded once: a local run up to '@', a chosen dot and a letter run after it. */
  lemma EmailMatchOfParts(s: string, l: nat, j: nat, k: nat, n: nat)
    requires 0 < l < |s| && Run(s, LocalChar) == l && s[l] == '@'
    requires TldDot(s[l + 1..], Run(s[l + 1..], DomainChar)) == Some(j)
    requires Run(s[l + 1..][j + 1..], Letter) == k
    requires n == l + 1 + j + 1 + k
    ensures EmailMatch(s).Some? && EmailMatch(s).value == n
  {
    var t := s[l + 1..];
    assert TldDot(t, Run(t, DomainChar)).value == j;
  }

  lemma LocalPartRun(local: string, domain: string, tld: string, q: string)
    requires AddressParts(local, domain, tld)
    ensures var s := Address(local, domain, tld) + q;
      Run(s, LocalChar) == |local| && s[|local|] == '@' && s[|local| + 1..] == domain + "." + tld + q
    ensures |Address(local, domain, tld)| == |local| + 1 + |domain| + 1 + |tld|
  {
    var s := Address(local, domain, tld) + q;
    var l := |local|;
    assert s[l] == '@';
    forall i | 0 <= i < l
      ensures LocalChar(s[i])
    {
      assert s[i] == local[i];
    }
    RunIs(s, LocalChar, l);
    assert s[l + 1..] == domain + "." + tld + q;
  }

  lemma DomainPartRuns(domain: string, tld: string, q: string)
    requires domain != [] && (forall i :: 0 <= i < |domain| ==> DomainChar(domain[i]))
    requires |tld| >= 2 && (forall i :: 0 <= i < |tld| ==> Letter(tld[i]))
    requires q == [] || !DomainChar(q[0])
    ensures var t := domain + "." + tld + q; var m := |domain| + 1 + |tld|;
      && Run(t, DomainChar) == m
      && TldDot(t, m) == Some(|domain|)
      && Run(t[|domain| + 1..], Letter) == |tld|
  {
    var t := domain + "." + tld + q;
    var m := |domain| + 1 + |tld|;
    var j := |domain|;
    assert Run(t, DomainChar) == m by {
      forall i | 0 <= i < m
        ensures DomainChar(t[i])
      {
        if i < j {
          assert t[i] == domain[i];
        } else if i > j {
          assert t[i] == tld[i - j - 1];
        }
      }
      assert m < |t| ==> t[m] == q[0];
      RunIs(t, DomainChar, m);
    }
    assert TldDot(t, m) == Some(j) by {
      assert t[j] == '.' && t[j + 1] == tld[0] && t[j + 2] == tld[1];
      assert DotBeforeTld(t, j);
      forall k | j < k < m
        ensures !DotBeforeTld(t, k)
      {
        assert t[k] == tld[k - j - 1];
      }
    }
    var rest := t[j + 1..];
    assert Run(rest, Letter) == |tld| by {
      assert rest == tld + q;
      forall i | 0 <= i < |tld|
        ensures Letter(rest[i])
      {
        assert rest[i] == tld[i];
      }
      assert |tld| < |rest| ==> rest[|tld|] == q[0];
      RunIs(rest, Letter, |tld|);
    }
  }

  /**
   * No address match starts in text without '@' that does not end in a
   * character of a local part.
   */
  lemma NoAddressBefore(p: string, t: string)
    requires p != [] && '@' !in p && !LocalChar(p[|p| - 1])
    ensures EmailMatch(p + t).None?
  {
    var s := p + t;
    var l := Run(s, LocalChar);
    assert s[|p| - 1] == p[|p| - 1];
    if 0 < l {
      assert l < |p|;
      assert s[l] == p[l];
    }
  }

  lemma LinkEmailsSkipsFirst(p: string, t: string, cls: string)
    requires p != [] && '@' !in p && !LocalChar(p[|p| - 1])
    ensures LinkEmails(p + t, cls) == [p[0]] + LinkEmails(p[1..] + t, cls)
  {
    NoAddressBefore(p, t);
    assert (p + t)[0] == p[0] && (p + t)[1..] == p[1..] + t;
  }

  /** Text before an address that holds no '@' and does not run into the local part is copied as it is. */
  lemma {:induction false} LinkEmailsPlainPrefix(p: string, t: string, cls: string)
    requires '@' !in p && (p == [] || !LocalChar(p[|p| - 1]))
    ensures LinkEmails(p + t, cls) == p + LinkEmails(t, cls)
    decreases |p|
  {
    if p == [] {
      assert p + t == t;
    } else {
      LinkEmailsSkipsFirst(p, t, cls);
      assert p[1..] == [] || p[1..][|p[1..]| - 1] == p[|p| - 1];
      LinkEmailsPlainPrefix(p[1..], t, cls);
      ConsAppend(p, LinkEmails(t, cls));
    }
  }

  /**
   * An address in running text becomes one mailto anchor on the whole
   * address; the text before it is kept and the text after it is scanned on
   * its own.
   */
  lemma AddressLinkedIn(p: string, local: string, domain: string, tld: string, q: string, cls: string)
    requires '@' !in p && (p == [] || !LocalChar(p[|p| - 1]))
    requires AddressParts(local, domain, tld)
    requires q == [] || !DomainChar(q[0])
    ensures var a := Address(local, domain, tld);
      LinkEmails(p + a + q, cls) == p + MailAnchor(a, cls) + LinkEmails(q, cls)
  {
    var a := Address(local, domain, tld);
    LinkEmailsPlainPrefix(p, a + q, cls);
    AddressLinkedAtStart(local, domain, tld, q, cls);
    Regroup(p, a, q, MailAnchor(a, cls), LinkEmails(q, cls));
  }

  lemma AddressLinkedAtStart(local: string, domain: string, tld: string, q: string, cls: string)
    requires AddressParts(local, domain, tld)
    requires q == [] || !DomainChar(q[0])
    ensures var a := Address(local, domain, tld);
      LinkEmails(a + q, cls) == MailAnchor(a, cls) + LinkEmails(q, cls)
  {
    var a := Address(local, domain, tld);
    EmailMatchOfAddress(local, domain, tld, q);
    assert (a + q)[..|a|] == a && (a + q)[|a|..] == q;
  }

  lemma EmailMatchExample()
    ensures EmailMatch("b@x.y.io.") == Some(8)
  {
    var s := "b@x.y.io.";
    RunIs(s, LocalChar, 1);
    var t := s[2..];
    assert t == "x.y.io.";
    RunIs(t, DomainChar, 7);
    assert TldDot(t, 7) == Some(3) by {
      assert !DotBeforeTld(t, 6) && !DotBeforeTld(t, 5) && !DotBeforeTld(t, 4) && DotBeforeTld(t, 3);
    }
    assert t[4..] == "io.";
    RunIs(t[4..], Letter, 2);
  }

  /** The address with its subdomain is one link; the full stop after it stays text. */
  lemma AddressLinked(cls: string)
    ensures LinkEmails("b@x.y.io.", cls) == MailAnchor("b@x.y.io", cls) + "."
  {
    var s := "b@x.y.io.";
    EmailMatchExample();
    assert s[..8] == "b@x.y.io" && s[8..] == ".";
    LinkEmailsKeepPlainText(".", cls);
  }

  // ---------------------------------------------------------------------
  // str_replace(["\r\n", "\r", "\n"], '<br>', $text): three passes in order.

  function BreakLines(s: string): (r: string)
    ensures '\r' !in r && '\n' !in r
  {
    var crlf := ReplaceAll(s, "\r\n", "<br>");
    var cr := ReplaceAll(crlf, "\r", "<br>");
    ReplaceAllRemoves(crlf, '\r', "<br>");
    ReplaceAllKeepsAbsent(cr, "\n", "<br>", '\r');
    ReplaceAllRemoves(cr, '\n', "<br>");
    ReplaceAll(cr, "\n", "<br>")
  }

  /**
   * The three passes read as one left-to-right scan: a CRLF pair, a lone CR
   * and a lone LF each become one `<br>`; every other character is kept.
   */
  function EachBreak(s: string): (r: string)
    decreases |s|
  {
    if s == [] then []
    else if |s| >= 2 && s[0] == '\r' && s[1] == '\n' then "<br>" + EachBreak(s[2..])
    else if s[0] == '\r' || s[0] == '\n' then "<br>" + EachBreak(s[1..])
    else [s[0]] + EachBreak(s[1..])
  }

  /** The second and third passes, which replace single characters. */
  function SinglePasses(s: string): string {
    ReplaceAll(ReplaceAll(s, "\r", "<br>"), "\n", "<br>")
  }

  /** Replacing a single character works piece by piece. */
  lemma {:induction false} ReplaceCharAppend(x: string, y: string, c: char, rep: string)
    ensures ReplaceAll(x + y, [c], rep) == ReplaceAll(x, [c], rep) + ReplaceAll(y, [c], rep)
    decreases |x|
  {
    if x == [] {
      assert x + y == y;
    } else {
      assert (x + y)[..1] == x[..1] && (x + y)[1..] == x[1..] + y;
      ReplaceCharAppend(x[1..], y, c, rep);
    }
  }

  lemma SinglePassesAppend(x: string, y: string)
    ensures SinglePasses(x + y) == SinglePasses(x) + SinglePasses(y)
  {
    ReplaceCharAppend(x, y, '\r', "<br>");
    ReplaceCharAppend(ReplaceAll(x, "\r", "<br>"), ReplaceAll(y, "\r", "<br>"), '\n', "<br>");
  }

  /** What the single-character passes make of one character and of a `<br>`. */
  lemma SinglePassesOf(c: char)
    ensures SinglePasses([c]) == if c == '\r' || c == '\n' then "<br>" else [c]
    ensures SinglePasses("<br>") == "<br>"
  {
    ReplaceAllIdentity("<br>", "\r", "<br>");
    ReplaceAllIdentity("<br>", "\n", "<br>");
    if c == '\r' {
      assert ReplaceAll([c], "\r", "<br>") == "<br>" by {
        assert [c][1..] == [];
      }
    } else {
      assert ReplaceAll([c], "\r", "<br>") == [c] by {
        assert [c][..1] == [c] && [c][1..] == [];
      }
      if c == '\n' {
        assert [c][1..] == [];
      } else {
        assert [c][..1] == [c] && [c][1..] == [];
      }
    }
  }

  /** The CRLF pass steps over a character that does not start a CRLF pair. */
  lemma CrlfPassStep(s: string)
    requires s != [] && !(|s| >= 2 && s[0] == '\r' && s[1] == '\n')
    ensures ReplaceAll(s, "\r\n", "<br>") == [s[0]] + ReplaceAll(s[1..], "\r\n", "<br>")
  {
    if |s| >= 2 {
      assert s[..2] != "\r\n" by {
        assert s[..2][0] == s[0] && s[..2][1] == s[1];
      }
    } else {
      assert s == [s[0]] && s[1..] == [];
    }
  }

  /** str_replace with the three searches in order is the one-pass scan. */
  lemma {:induction false} BreakLinesIsEachBreak(s: string)
    ensures BreakLines(s) == EachBreak(s)
    decreases |s|
  {
    var crlf := ReplaceAll(s, "\r\n", "<br>");
    assert BreakLines(s) == SinglePasses(crlf);
    if s == [] {
    } else if |s| >= 2 && s[0] == '\r' && s[1] == '\n' {
      assert s[..2] == "\r\n";
      var rest := ReplaceAll(s[2..], "\r\n", "<br>");
      assert crlf == "<br>" + rest;
      SinglePassesAppend("<br>", rest);
      SinglePassesOf(s[0]);
      BreakLinesIsEachBreak(s[2..]);
      assert BreakLines(s[2..]) == SinglePasses(rest);
    } else {
      var rest := ReplaceAll(s[1..], "\r\n", "<br>");
      CrlfPassStep(s);
      SinglePassesAppend([s[0]], rest);
      SinglePassesOf(s[0]);
      BreakLinesIsEachBreak(s[1..]);
      assert BreakLines(s[1..]) == SinglePasses(rest);
    }
  }

  /** The scan works piece by piece when the first piece does not end inside a CRLF pair. */
  lemma {:induction false} EachBreakAppend(a: string, b: string)
    requires a == [] || a[|a| - 1] != '\r'
    ensures EachBreak(a + b) == EachBreak(a) + EachBreak(b)
    decreases |a|
  {
    if a == [] {
      assert a + b == b;
    } else if |a| >= 2 && a[0] == '\r' && a[1] == '\n' {
      assert (a + b)[0] == '\r' && (a + b)[1] == '\n' && (a + b)[2..] == a[2..] + b;
      EachBreakAppend(a[2..], b);
    } else {
      assert |a| == 1 ==> a[0] != '\r';
      assert (a + b)[0] == a[0] && (a + b)[1..] == a[1..] + b;
      assert a[0] == '\r' ==> (a + b)[1] == a[1];
      EachBreakAppend(a[1..], b);
    }
  }

  /**
   * A line feed becomes one `<br>` between the two sides, each converted on
   * its own, unless a CR comes right before it.
   */
  lemma LineFeedBreak(a: string, b: string)
    requires a == [] || a[|a| - 1] != '\r'
    ensures BreakLines(a + "\n" + b) == BreakLines(a) + "<br>" + BreakLines(b)
  {
    assert EachBreak(a + "\n" + b) == EachBreak(a) + "<br>" + EachBreak(b) by {
      EachBreakAppend(a, "\n" + b);
      assert a + "\n" + b == a + ("\n" + b);
      assert ("\n" + b)[1..] == b;
    }
    BreakLinesIsEachBreak(a + "\n" + b);
    BreakLinesIsEachBreak(a);
    BreakLinesIsEachBreak(b);
  }

  /** A CRLF pair becomes one `<br>`, not two. */
  lemma CrlfBreak(a: string, b: string)
    requires a == [] || a[|a| - 1] != '\r'
    ensures BreakLines(a + "\r\n" + b) == BreakLines(a) + "<br>" + BreakLines(b)
  {
    assert EachBreak(a + "\r\n" + b) == EachBreak(a) + "<br>" + EachBreak(b) by {
      EachBreakAppend(a, "\r\n" + b);
      assert a + "\r\n" + b == a + ("\r\n" + b);
      assert ("\r\n" + b)[2..] == b;
    }
    BreakLinesIsEachBreak(a + "\r\n" + b);
    BreakLinesIsEachBreak(a);
    BreakLinesIsEachBreak(b);
  }

  /** A CR that is not followed by a LF becomes one `<br>` too. */
  lemma LoneCrBreak(a: string, b: string)
    requires a == [] || a[|a| - 1] != '\r'
    requires b == [] || b[0] != '\n'
    ensures BreakLines(a + "\r" + b) == BreakLines(a) + "<br>" + BreakLines(b)
  {
    assert EachBreak(a + "\r" + b) == EachBreak(a) + "<br>" + EachBreak(b) by {
      EachBreakAppend(a, "\r" + b);
      assert a + "\r" + b == a + ("\r" + b);
      assert ("\r" + b)[1..] == b;
      assert |"\r" + b| >= 2 ==> ("\r" + b)[1] == b[0];
    }
    BreakLinesIsEachBreak(a + "\r" + b);
    BreakLinesIsEachBreak(a);
    BreakLinesIsEachBreak(b);
  }

  /** Text without CR or LF passes unchanged. */
  lemma NoBreakKept(s: string)
    requires '\r' !in s && '\n' !in s
    ensures BreakLines(s) == s
  {
    ReplaceAllIdentity(s, "\r\n", "<br>");
    ReplaceAllIdentity(s, "\r", "<br>");
    ReplaceAllIdentity(s, "\n", "<br>");
  }

  /** A CRLF pair is one line break, not two. */
  lemma CrlfIsOneBreak()
    ensures BreakLines("a\r\nb") == "a<br>b"
  {
    assert ReplaceAll("a\r\nb", "\r\n", "<br>") == "a<br>b" by {
      assert "a\r\nb"[..2][0] == 'a';
      assert "a\r\nb"[1..] == "\r\nb";
      assert "\r\nb"[..2] == "\r\n" && "\r\nb"[2..] == "b";
    }
    ReplaceAllIdentity("a<br>b", "\r", "<br>");
    ReplaceAllIdentity("a<br>b", "\n", "<br>");
  }

  /** A search string whose first character does not occur is never found. */
  lemma {:induction false} ReplaceAllIdentity(s: string, search: string, replacement: string)
    requires search != [] && search[0] !in s
    ensures ReplaceAll(s, search, replacement) == s
    decreases |s|
  {
    if |s| >= |search| {
      assert s[..|search|][0] == s[0];
      ReplaceAllIdentity(s[1..], search, replacement);
    }
  }

  // ---------------------------------------------------------------------
  // preg_replace('/(<br>\s*){3,}/', '<br><br>', $text)

  /** How many times the greedy `<br>\s*` repeats at the start of s. */
  function BreakCount(s: string): nat
    decreases |s|
  {
    if IsPrefix("<br>", s) then 1 + BreakCount(s[4 + Run(s[4..], IsSpace)..]) else 0
  }

  /** How much of s those repetitions cover: at least four characters each. */
  function BreakSpan(s: string): (n: nat)
    ensures n <= |s| && n >= 4 * BreakCount(s)
    decreases |s|
  {
    if IsPrefix("<br>", s) then 4 + Run(s[4..], IsSpace) + BreakSpan(s[4 + Run(s[4..], IsSpace)..]) else 0
  }

  /**
   * Three or more breaks with only whitespace between them become exactly
   * two. The text never grows, and no character other than those of "<br>"
   * is introduced.
   */
  function CollapseBreaks(s: string): (r: string)
    ensures |r| <= |s|
    ensures forall c :: c in r ==> c in s || c in "<br>"
    decreases |s|
  {
    if s == [] then []
    else
      var n := BreakSpan(s);
      if BreakCount(s) >= 3 then
        assert forall c :: c in s[n..] ==> c in s;
        "<br><br>" + CollapseBreaks(s[n..])
      else
        assert forall c :: c in s[1..] ==> c in s;
        [s[0]] + CollapseBreaks(s[1..])
  }

  /** Text without a break is left as it is. */
  lemma {:induction false} CollapseKeepsPlainText(s: string)
    requires !Contains(s, "<br>")
    ensures CollapseBreaks(s) == s
    decreases |s|
  {
    if s != [] {
      CollapseKeepsPlainText(s[1..]);
    }
  }

  predicate AllSpace(w: string) {
    forall i :: 0 <= i < |w| ==> IsSpace(w[i])
  }

  /** One `<br>` and the blanks after it, in front of text that does not start with a blank. */
  lemma BreakRunStep(w: string, rest: string)
    requires AllSpace(w)
    requires rest == [] || !IsSpace(rest[0])
    ensures BreakCount("<br>" + w + rest) == BreakCount(rest) + 1
    ensures BreakSpan("<br>" + w + rest) == 4 + |w| + BreakSpan(rest)
  {
    var t := w + rest;
    var s := "<br>" + t;
    assert s == "<br>" + w + rest;
    assert s[..4] == "<br>" && s[4..] == t;
    forall i | 0 <= i < |w|
      ensures IsSpace(t[i])
    {
      assert t[i] == w[i];
    }
    assert |w| < |t| ==> t[|w|] == rest[0];
    RunIs(t, IsSpace, |w|);
    assert t[|w|..] == rest;
    assert s[4 + |w|..] == rest;
  }

  /** Where three or more breaks start, they are replaced and scanning resumes after them. */
  lemma CollapseAt(s: string)
    requires BreakCount(s) >= 3
    ensures CollapseBreaks(s) == "<br><br>" + CollapseBreaks(s[BreakSpan(s)..])
  {
  }

  /**
   * Three breaks with any blanks between and after them become exactly two,
   * and the text after them is handled on its own.
   */
  lemma ThreeBreaksBecomeTwo(w1: string, w2: string, w3: string, rest: string)
    requires AllSpace(w1) && AllSpace(w2) && AllSpace(w3)
    requires !IsPrefix("<br>", rest) && (rest == [] || !IsSpace(rest[0]))
    ensures CollapseBreaks("<br>" + w1 + ("<br>" + w2 + ("<br>" + w3 + rest))) == "<br><br>" + CollapseBreaks(rest)
  {
    var s3 := "<br>" + w3 + rest;
    var s2 := "<br>" + w2 + s3;
    var s1 := "<br>" + w1 + s2;
    BreakRunStep(w3, rest);
    BreakRunStep(w2, s3);
    BreakRunStep(w1, s2);
    assert BreakSpan(rest) == 0;
    CollapseAt(s1);
    assert s1[BreakSpan(s1)..] == rest;
  }

  // ---------------------------------------------------------------------
  // toHtml and toHtmlWithOptions

  const DefaultLinkClass: string := "text-blue-600" + " hover:text-blue-800" + " underline"

  /** TextFormatter::toHtml: the fixed chain with the literal classes. */
  function ToHtml(text: string): (html: string)
    ensures '\r' !in html && '\n' !in html
  {
    var escaped := EscapeHtml(text);
    var ruled := Separators(escaped, "<hr class=\"my-4 border-gray-300\">");
    var linked := LinkUrls(ruled, DefaultLinkClass);
    var mailed := LinkEmails(linked, DefaultLinkClass);
    CollapseBreaks(BreakLines(mailed))
  }

  /** The option keys a caller may pass; an absent key takes the default. */
  datatype GivenOptions = GivenOptions(
    convertLinks: Option<bool>, convertEmails: Option<bool>, convertSeparators: Option<bool>,
    escapeHtml: Option<bool>, linkClass: Option<string>, hrClass: Option<string>)

  const NoOptions: GivenOptions := GivenOptions(None, None, None, None, None, None)

  datatype Options = Options(
    convertLinks: bool, convertEmails: bool, convertSeparators: bool,
    escapeHtml: bool, linkClass: string, hrClass: string)

  /** `array_merge($defaults, $options)`: a given key wins over its default. */
  function Merged(given: GivenOptions): (o: Options)
    ensures given.escapeHtml.None? ==> o.escapeHtml
    ensures given.escapeHtml.Some? ==> o.escapeHtml == given.escapeHtml.value
    ensures given.linkClass.None? ==> o.linkClass == DefaultLinkClass
    ensures given.hrClass.None? ==> o.hrClass == "my-4 border-gray-300"
  {
    Options(given.convertLinks.GetOr(true), given.convertEmails.GetOr(true), given.convertSeparators.GetOr(true),
            given.escapeHtml.GetOr(true), given.linkClass.GetOr(DefaultLinkClass),
            given.hrClass.GetOr("my-4 border-gray-300"))
  }

  /** TextFormatter::toHtmlWithOptions: each optional step runs exactly when its flag is set. */
  function ToHtmlWithOptions(text: string, given: GivenOptions): (html: string)
    ensures '\r' !in html && '\n' !in html
  {
    var o := Merged(given);
    var escaped := if o.escapeHtml then EscapeHtml(text) else text;
    var ruled := if o.convertSeparators then Separators(escaped, "<hr class=\"" + o.hrClass + "\">") else escaped;
    var linked := if o.convertLinks then LinkUrls(ruled, o.linkClass) else ruled;
    var mailed := if o.convertEmails then LinkEmails(linked, o.linkClass) else linked;
    CollapseBreaks(BreakLines(mailed))
  }

  /** With no options the defaults reproduce toHtml exactly. */
  lemma DefaultsReproduceToHtml(text: string)
    ensures ToHtmlWithOptions(text, NoOptions) == ToHtml(text)
  {
    var hr := "<hr class=\"my-4 border-gray-300\">";
    assert Merged(NoOptions) == Options(true, true, true, true, DefaultLinkClass, "my-4 border-gray-300");
    assert "<hr class=\"" + "my-4 border-gray-300" + "\">" == hr;
    var ruled := Separators(EscapeHtml(text), hr);
    assert ToHtmlWithOptions(text, NoOptions) ==
      CollapseBreaks(BreakLines(LinkEmails(LinkUrls(ruled, DefaultLinkClass), DefaultLinkClass)));
  }

  /** With every flag off only the line-break steps run; in particular nothing is escaped. */
  lemma AllStepsOff(text: string, linkClass: Option<string>, hrClass: Option<string>)
    ensures ToHtmlWithOptions(text, GivenOptions(Some(false), Some(false), Some(false), Some(false), linkClass, hrClass))
         == CollapseBreaks(BreakLines(text))
  {
  }

  /**
   * With escaping off and the other steps on, text that none of the later
   * steps touches (no separator, URL, address, line break or break tag)
   * comes out exactly as it went in, markup included.
   */
  lemma EscapeOffPassesMarkup(text: string)
    requires !Contains(text, "-----") && !Contains(text, "http") && '@' !in text
    requires '\r' !in text && '\n' !in text && !Contains(text, "<br>")
    ensures ToHtmlWithOptions(text, GivenOptions(None, None, None, Some(false), None, None)) == text
  {
    var hr := "<hr class=\"" + "my-4 border-gray-300" + "\">";
    SeparatorsKeepPlainText(text, hr);
    LinkUrlsKeepPlainText(text, DefaultLinkClass);
    LinkEmailsKeepPlainText(text, DefaultLinkClass);
    ReplaceAllIdentity(text, "\r\n", "<br>");
    ReplaceAllIdentity(text, "\r", "<br>");
    ReplaceAllIdentity(text, "\n", "<br>");
    CollapseKeepsPlainText(text);
  }

  /**
   * Text with nothing to escape, no separator, no URL and no address goes
   * through the line-break steps only, whatever the options say.
   */
  lemma ToHtmlWithOptionsOfPlainText(text: string, given: GivenOptions)
    requires NoSpecials(text) && !Contains(text, "-----") && !Contains(text, "http") && '@' !in text
    ensures ToHtmlWithOptions(text, given) == CollapseBreaks(BreakLines(text))
  {
    var o := Merged(given);
    EscapeKeepsPlainText(text);
    SeparatorsKeepPlainText(text, "<hr class=\"" + o.hrClass + "\">");
    LinkUrlsKeepPlainText(text, o.linkClass);
    LinkEmailsKeepPlainText(text, o.linkClass);
  }

  /** The same for toHtml. */
  lemma ToHtmlOfPlainText(text: string)
    requires NoSpecials(text) && !Contains(text, "-----") && !Contains(text, "http") && '@' !in text
    ensures ToHtml(text) == CollapseBreaks(BreakLines(text))
  {
    EscapeKeepsPlainText(text);
    SeparatorsKeepPlainText(text, "<hr class=\"my-4 border-gray-300\">");
    LinkUrlsKeepPlainText(text, DefaultLinkClass);
    LinkEmailsKeepPlainText(text, DefaultLinkClass);
  }

  /**
   * A message that is one URL and nothing else comes out as exactly one
   * link, to the URL with its trailing punctuation cut off.
   */
  lemma ToHtmlOfUrl(u: string)
    requires UrlToken(u) && NoSpecials(u) && '@' !in u
    ensures ToHtml(u) == UrlAnchor(TrimUrl(u), DefaultLinkClass)
  {
    var cls := DefaultLinkClass;
    var a := UrlAnchor(TrimUrl(u), cls);
    UrlTokenOneLine(u);
    assert LinkUrls(Separators(EscapeHtml(u), "<hr class=\"my-4 border-gray-300\">"), cls) == a by {
      EscapeKeepsPlainText(u);
      UrlLinkedAtStart(u, [], cls);
      assert u + [] == u;
    }
    var url := TrimUrl(u);
    assert '<' !in url && '@' !in url && '\r' !in url && '\n' !in url && url[0] == 'h' by {
      forall c | c in url
        ensures c in u
      {
        var i :| 0 <= i < |url| && url[i] == c;
        assert u[i] == url[i];
      }
      assert url[0] == u[..|url|][0];
    }
    AnchorPassesLaterSteps(url);
  }

  /** A URL token is one line, starts with 'h', and so is no separator line. */
  lemma UrlTokenOneLine(u: string)
    requires UrlToken(u)
    ensures '\r' !in u && '\n' !in u && u[0] == 'h' && !IsRuleLine(u)
  {
    SchemeIsHttp(u);
    forall i | 0 <= i < |u|
      ensures u[i] != '\r' && u[i] != '\n'
    {
      if i >= 4 {
        assert UrlChar(u[i]);
      } else {
        assert u[i] == u[..4][i];
      }
    }
    assert u[0] == u[..4][0];
  }

  /** A link the URL step made passes the address, line-break and collapse steps unchanged. */
  lemma AnchorPassesLaterSteps(url: string)
    requires '<' !in url && '@' !in url && '\r' !in url && '\n' !in url
    requires url != [] && url[0] == 'h'
    ensures var a := UrlAnchor(url, DefaultLinkClass);
      CollapseBreaks(BreakLines(LinkEmails(a, DefaultLinkClass))) == a
  {
    var cls := DefaultLinkClass;
    var a := UrlAnchor(url, cls);
    LinkClassPlain();
    LinkClassOneLine();
    assert LinkEmails(a, cls) == a by {
      AnchorAvoids(url, cls, '@');
      LinkEmailsKeepPlainText(a, cls);
    }
    assert BreakLines(a) == a by {
      AnchorAvoids(url, cls, '\r');
      AnchorAvoids(url, cls, '\n');
      NoBreakKept(a);
    }
    AnchorHasNoBreakTag(url, cls);
    CollapseKeepsNoBreakTag(a);
  }

  /** None of '@', CR or LF occurs in the fixed markup of a link. */
  lemma MarkupLacks(c: char)
    requires c == '@' || c == '\r' || c == '\n'
    ensures c !in "<a href=\"" && c !in "\" target=\"_blank\"" && c !in " rel=\"noopener noreferrer\""
    ensures c !in " class=\"" && c !in "\">" && c !in "</a>"
  {
    if c == '@' {
      assert c !in "\" target=\"_blank\"" && c !in " rel=\"noopener noreferrer\"";
    } else if c == '\r' {
      assert c !in "\" target=\"_blank\"" && c !in " rel=\"noopener noreferrer\"";
    } else {
      assert c !in "\" target=\"_blank\"" && c !in " rel=\"noopener noreferrer\"";
    }
  }

  /** '@', CR and LF occur in a link only where the URL or the class holds them. */
  lemma AnchorAvoids(url: string, cls: string, c: char)
    requires c == '@' || c == '\r' || c == '\n'
    requires c !in url && c !in cls
    ensures c !in UrlAnchor(url, cls)
  {
    MarkupLacks(c);
  }

  /** The default link class holds none of the characters the later steps act on. */
  lemma LinkClassPlain()
    ensures '<' !in DefaultLinkClass && '@' !in DefaultLinkClass && DefaultLinkClass[0] == 't'
  {
  }

  lemma LinkClassOneLine()
    ensures '\r' !in DefaultLinkClass && '\n' !in DefaultLinkClass
  {
  }

  /** No `<` directly followed by `b`: nowhere for a `<br>` to start. */
  predicate NoBreakTag(s: string) {
    forall i :: 0 <= i < |s| - 1 ==> !(s[i] == '<' && s[i + 1] == 'b')
  }

  lemma NoBreakTagAppend(a: string, b: string)
    requires NoBreakTag(a) && NoBreakTag(b)
    requires b == [] || b[0] != 'b'
    ensures NoBreakTag(a + b)
  {
    var s := a + b;
    forall i | 0 <= i < |s| - 1
      ensures !(s[i] == '<' && s[i + 1] == 'b')
    {
      if i + 1 < |a| {
        assert s[i] == a[i] && s[i + 1] == a[i + 1];
      } else if i + 1 == |a| {
        assert s[i + 1] == b[0];
      } else {
        assert s[i] == b[i - |a|] && s[i + 1] == b[i + 1 - |a|];
      }
    }
  }

  lemma NoBreakTagOfNoLt(s: string)
    requires '<' !in s
    ensures NoBreakTag(s)
  {
    forall i | 0 <= i < |s| - 1
      ensures s[i] != '<'
    {
      assert s[i] in s;
    }
  }

  /** The fixed markup of a link: its only '<' are those of `<a` and `</a>`. */
  lemma MarkupHasNoBreakTag()
    ensures NoBreakTag("<a href=\"") && NoBreakTag("\" target=\"_blank\"") && NoBreakTag(" rel=\"noopener noreferrer\"")
    ensures NoBreakTag(" class=\"") && NoBreakTag("\">") && NoBreakTag("</a>")
  {
    var p1 := "<a href=\"";
    var p4 := "</a>";
    assert NoBreakTag(p1) by {
      assert p1[1] == 'a';
      assert forall i :: 1 <= i < |p1| ==> p1[i] != '<';
    }
    assert NoBreakTag(p4) by {
      assert p4[1] == '/';
      assert forall i :: 1 <= i < |p4| ==> p4[i] != '<';
    }
    assert '<' !in "\" target=\"_blank\"";
    NoBreakTagOfNoLt("\" target=\"_blank\"");
    assert '<' !in " rel=\"noopener noreferrer\"";
    NoBreakTagOfNoLt(" rel=\"noopener noreferrer\"");
    NoBreakTagOfNoLt(" class=\"");
    NoBreakTagOfNoLt("\">");
  }

  lemma AnchorHasNoBreakTag(url: string, cls: string)
    requires '<' !in url && '<' !in cls
    requires url != [] && url[0] != 'b' && cls != [] && cls[0] != 'b'
    ensures NoBreakTag(UrlAnchor(url, cls))
  {
    var p1 := "<a href=\"";
    var q1 := "\" target=\"_blank\"";
    var q2 := " rel=\"noopener noreferrer\"";
    var q3 := " class=\"";
    var p3 := "\">";
    var p4 := "</a>";
    MarkupHasNoBreakTag();
    NoBreakTagOfNoLt(url);
    NoBreakTagOfNoLt(cls);
    assert q1[0] == '"' && q2[0] == ' ' && q3[0] == ' ' && p3[0] == '"' && p4[0] == '<';
    var x1 := p1 + url;
    NoBreakTagAppend(p1, url);
    var x2 := x1 + q1;
    NoBreakTagAppend(x1, q1);
    var x3 := x2 + q2;
    NoBreakTagAppend(x2, q2);
    var x4 := x3 + q3;
    NoBreakTagAppend(x3, q3);
    var x5 := x4 + cls;
    NoBreakTagAppend(x4, cls);
    var x6 := x5 + p3;
    NoBreakTagAppend(x5, p3);
    var x7 := x6 + url;
    NoBreakTagAppend(x6, url);
    NoBreakTagAppend(x7, p4);
    assert UrlAnchor(url, cls) == x7 + p4;
  }

  /** Text where no `<br>` can start is left as it is by the collapse. */
  lemma {:induction false} CollapseKeepsNoBreakTag(s: string)
    requires NoBreakTag(s)
    ensures CollapseBreaks(s) == s
    decreases |s|
  {
    if s != [] {
      assert !IsPrefix("<br>", s) by {
        if |s| >= 4 {
          assert s[..4][0] == s[0] && s[..4][1] == s[1];
        }
      }
      assert NoBreakTag(s[1..]) by {
        forall i | 0 <= i < |s| - 2
          ensures !(s[1..][i] == '<' && s[1..][i + 1] == 'b')
        {
          assert s[1..][i] == s[i + 1] && s[1..][i + 1] == s[i + 2];
        }
      }
      CollapseKeepsNoBreakTag(s[1..]);
    }
  }
}
