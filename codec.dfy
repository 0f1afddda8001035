/** The terse wire text. The server stringifies a message array, drops the
    outer brackets and unquotes every object key made of letters and digits
    (server `toJSON`); the client quotes every run of letters and digits that
    is followed by a colon again and puts the brackets back before parsing
    (client `onmessage`). `JSON.stringify` and `JSON.parse` themselves are not
    modelled: the server side starts from the stringified text, the client side
    stops at the text handed to `JSON.parse`. */
module Codec {

  /** A character of the class `[a-z0-9]` under the `i` flag: ASCII letters of
      either case and digits (without the `u` flag no non-ASCII character
      folds onto an ASCII one). */
  predicate IsKeyChar(c: char) {
    ('a' <= c <= 'z') || ('A' <= c <= 'Z') || ('0' <= c <= '9')
  }

  predicate AllKeyChars(k: string) {
    forall i :: 0 <= i < |k| ==> IsKeyChar(k[i])
  }

  /** Length of the longest prefix of s made of key characters. */
  function RunLen(s: string): (n: nat)
    ensures n <= |s|
    ensures AllKeyChars(s[..n])
    ensures n < |s| ==> !IsKeyChar(s[n])
  {
    if |s| == 0 || !IsKeyChar(s[0]) then 0
    else
      var m := RunLen(s[1..]);
      assert s[..m + 1] == [s[0]] + s[1..][..m];
      m + 1
  }

  /** `str.substring(start, end)`: both ends clamped to [0, |str|], swapped
      when given in the wrong order. */
  function Substring(str: string, start: int, end: int): (r: string)
    ensures var a := Clamp(start, |str|);
            var b := Clamp(end, |str|);
            |r| == (if a <= b then b - a else a - b)
    ensures var a := Clamp(start, |str|);
            var b := Clamp(end, |str|);
            (a <= b ==> r == str[a..b]) && (b < a ==> r == str[b..a])
    ensures 0 <= start <= end <= |str| ==> r == str[start..end]
  {
    var a := Clamp(start, |str|);
    var b := Clamp(end, |str|);
    if a <= b then str[a..b] else str[b..a]
  }

  function Clamp(i: int, len: nat): (r: nat)
    ensures r <= len
    ensures 0 <= i <= len ==> r == i
  {
    if i < 0 then 0 else if i > len then len else i
  }

  // ---------------------------------------------------------------------------
  // Server side: msg.replace(/\"([a-z0-9]+)\"\:/gi, '$1:')

  /** The length of the key when the pattern `"key":` matches at the start of
      s, and 0 when it does not. The greedy `[a-z0-9]+` can only be followed by
      the closing quote at the end of the maximal run, so no backtracking
      gives another match. */
  function QuotedKeyAt(s: string): (n: nat)
    ensures n > 0 ==> n + 3 <= |s| && s[0] == '"' && AllKeyChars(s[1..n + 1])
                       && s[n + 1] == '"' && s[n + 2] == ':'
  {
    if |s| < 1 || s[0] != '"' then 0
    else
      var n := RunLen(s[1..]);
      if n > 0 && n + 2 < |s| && s[n + 1] == '"' && s[n + 2] == ':' then
        assert s[1..][..n] == s[1..n + 1];
        n
      else 0
  }

  /** A global regular-expression replacement scans left to right: where the
      pattern matches, the match is replaced and scanning resumes after it;
      elsewhere one character is copied. */
  function Unquote(s: string): (r: string)
    ensures |r| <= |s|
  {
    if |s| == 0 then ""
    else
      var n := QuotedKeyAt(s);
      if n > 0 then s[1..n + 1] + ":" + Unquote(s[n + 3..])
      else [s[0]] + Unquote(s[1..])
  }

  /** Server `toJSON`, starting from the output of `JSON.stringify`. */
  function ToJSON(stringified: string): (r: string)
    ensures |stringified| >= 2 ==> |r| <= |stringified| - 2
    ensures |stringified| < 2 ==> r == ""
  {
    var msg := stringified;
    var tail := Substring(msg, 1, |msg|);
    Unquote(Substring(tail, 0, |msg| - 2))
  }

  /** `toJSON` drops exactly the first and the last character (the brackets
      of the stringified array) before unquoting; a text of fewer than two
      characters gives the empty text. */
  lemma ToJSONStripsBrackets(msg: string)
    ensures |msg| >= 2 ==> ToJSON(msg) == Unquote(msg[1..|msg| - 1])
    ensures |msg| < 2 ==> ToJSON(msg) == ""
  {
    if |msg| >= 2 {
      assert Substring(msg, 1, |msg|) == msg[1..];
      assert msg[1..][0..|msg| - 2] == msg[1..|msg| - 1];
    }
  }

  /** The characters of s other than the double quote. */
  function DropQuotes(s: string): (r: string)
    ensures '"' !in r
  {
    if |s| == 0 then ""
    else if s[0] == '"' then DropQuotes(s[1..])
    else [s[0]] + DropQuotes(s[1..])
  }

  /** Text without double quotes survives DropQuotes, also as a prefix. */
  lemma {:induction false} DropQuotesPlainPrefix(p: string, t: string)
    requires '"' !in p
    ensures DropQuotes(p + t) == p + DropQuotes(t)
  {
    if |p| > 0 {
      assert (p + t)[0] == p[0];
      assert (p + t)[1..] == p[1..] + t;
      assert '"' !in p[1..] by { assert forall i :: 0 <= i < |p| - 1 ==> p[1..][i] == p[i + 1]; }
      DropQuotesPlainPrefix(p[1..], t);
    } else {
      assert p + t == t;
    }
  }

  /** DropQuotes of a quoted key and colon at the front of a text. */
  lemma DropQuotesKey(k: string, t: string)
    requires '"' !in k
    ensures DropQuotes("\"" + k + "\":" + t) == k + ":" + DropQuotes(t)
    ensures DropQuotes(k + ":" + t) == k + ":" + DropQuotes(t)
  {
    var s := "\"" + k + "\":" + t;
    assert s[1..] == k + ("\":" + t);
    DropQuotesPlainPrefix(k, "\":" + t);
    var u := "\":" + t;
    assert u[1..] == ":" + t;
    DropQuotesPlainPrefix(":", t);
    assert k + (":" + t) == k + ":" + t;
    DropQuotesPlainPrefix(k + ":", t) by { assert '"' !in k + ":"; }
  }

  /** The server rewriting only ever deletes double quotes: apart from the
      quotes, the text is unchanged. */
  lemma {:induction false} UnquoteOnlyDropsQuotes(s: string)
    ensures DropQuotes(Unquote(s)) == DropQuotes(s)
    decreases |s|
  {
    if |s| > 0 {
      var n := QuotedKeyAt(s);
      if n > 0 {
        var k := s[1..n + 1];
        var rest := s[n + 3..];
        assert '"' !in k;
        assert s == "\"" + k + "\":" + rest;
        UnquoteOnlyDropsQuotes(rest);
        DropQuotesKey(k, rest);
        DropQuotesKey(k, Unquote(rest));
      } else {
        UnquoteOnlyDropsQuotes(s[1..]);
        assert ([s[0]] + Unquote(s[1..]))[1..] == Unquote(s[1..]);
      }
    }
  }

  /** Text without double quotes passes through the rewriting unchanged, and
      so does such a prefix of a longer text. */
  lemma {:induction false} UnquotePlainPrefix(p: string, t: string)
    requires '"' !in p
    ensures Unquote(p + t) == p + Unquote(t)
  {
    if |p| > 0 {
      assert (p + t)[0] == p[0];
      assert QuotedKeyAt(p + t) == 0;
      assert (p + t)[1..] == p[1..] + t;
      assert '"' !in p[1..] by { assert forall i :: 0 <= i < |p| - 1 ==> p[1..][i] == p[i + 1]; }
      UnquotePlainPrefix(p[1..], t);
    } else {
      assert p + t == t;
    }
  }

  /** A key of letters and digits loses its quotes. */
  lemma UnquoteKey(k: string, t: string)
    requires |k| > 0 && AllKeyChars(k)
    ensures Unquote("\"" + k + "\":" + t) == k + ":" + Unquote(t)
  {
    var s := "\"" + k + "\":" + t;
    assert s[1..][..|k|] == k;
    RunLenOfRun(s[1..], |k|);
    assert QuotedKeyAt(s) == |k|;
    assert s[1..|k| + 1] == k;
    assert s[|k| + 3..] == t;
  }

  /** A key with any other character (or an empty key) keeps its quotes. */
  lemma UnquoteOtherKey(k: string, t: string)
    requires '"' !in k
    requires !(|k| > 0 && AllKeyChars(k))
    ensures Unquote("\"" + k + "\":" + t) == "\"" + k + "\":" + Unquote(t)
  {
    OtherKeyNoMatch(k, t);
    UnquoteUnmatched(k, t);
  }

  /** Where the pattern does not match at a quote, the quote, the quote-free
      text up to the next `":`, and that pair are copied. */
  lemma UnquoteUnmatched(k: string, t: string)
    requires '"' !in k && QuotedKeyAt("\"" + k + "\":" + t) == 0
    ensures Unquote("\"" + k + "\":" + t) == "\"" + k + "\":" + Unquote(t)
  {
    var u := "\":" + t;
    Reassoc("\"", k, "\":", t);
    UnquoteQuoteCopied("\"" + (k + u), k + u);
    UnquoteKeyColonCopied(k, u, t);
    Reassoc("\"", k, "\":", Unquote(t));
  }

  lemma Reassoc(a: string, b: string, c: string, d: string)
    ensures a + b + c + d == a + (b + (c + d))
  {
  }

  lemma UnquoteQuoteCopied(s: string, r: string)
    requires s == "\"" + r && QuotedKeyAt(s) == 0
    ensures Unquote(s) == "\"" + Unquote(r)
  {
    UnquoteCopies(s);
    assert s[1..] == r;
  }

  lemma UnquoteKeyColonCopied(k: string, u: string, t: string)
    requires '"' !in k && u == "\":" + t
    ensures Unquote(k + u) == k + ("\":" + Unquote(t))
  {
    UnquotePlainPrefix(k, u);
    UnquoteQuoteColon(u);
    assert u[2..] == t;
    assert [u[0], u[1]] == "\":";
  }

  /** Where the pattern does not match, one character is copied. */
  lemma UnquoteCopies(s: string)
    requires |s| > 0 && QuotedKeyAt(s) == 0
    ensures Unquote(s) == [s[0]] + Unquote(s[1..])
  {
  }

  /** The pattern does not match at a quoted key that is not all key characters. */
  lemma OtherKeyNoMatch(k: string, t: string)
    requires '"' !in k
    requires !(|k| > 0 && AllKeyChars(k))
    ensures QuotedKeyAt("\"" + k + "\":" + t) == 0
  {
    var s := "\"" + k + "\":" + t;
    assert s[1..] == k + ("\":" + t);
    if |k| == 0 {
      assert s[1..][0] == '"';
    } else {
      RunLenBound(s[1..], k, "\":" + t);
    }
  }

  /** A quote right before a colon is copied, and so is the colon. */
  lemma UnquoteQuoteColon(s: string)
    requires |s| >= 2 && s[0] == '"' && s[1] == ':'
    ensures Unquote(s) == [s[0], s[1]] + Unquote(s[2..])
  {
    assert s[1..][0] == ':';
    RunLenStops(s[1..], 0);
    UnquoteCopies(s);
    UnquoteCopies(s[1..]);
    assert s[1..][1..] == s[2..];
  }

  /** The run of key characters at the start of k + rest, where k is not all
      key characters and has no quote, ends inside k and before a non-quote. */
  lemma RunLenBound(s: string, k: string, rest: string)
    requires s == k + rest && '"' !in k && !AllKeyChars(k)
    ensures RunLen(s) < |k| && s[RunLen(s)] != '"'
  {
    var i :| 0 <= i < |k| && !IsKeyChar(k[i]);
    assert s[i] == k[i];
    RunLenStops(s, i);
    assert s[RunLen(s)] == k[RunLen(s)];
  }

  /** The run of key characters stops at the first other character. */
  lemma {:induction false} RunLenStops(s: string, i: nat)
    requires i < |s| && !IsKeyChar(s[i])
    ensures RunLen(s) <= i
  {
    if i > 0 && IsKeyChar(s[0]) {
      assert s[1..][i - 1] == s[i];
      RunLenStops(s[1..], i - 1);
    }
  }

  /** A prefix of key characters followed by a non-key character (or the end)
      is exactly what RunLen measures. */
  lemma {:induction false} RunLenOfRun(s: string, n: nat)
    requires n <= |s| && AllKeyChars(s[..n]) && (n < |s| ==> !IsKeyChar(s[n]))
    ensures RunLen(s) == n
    decreases n
  {
    if n > 0 {
      assert s[..n][0] == s[0];
      var t := s[1..];
      assert t[..n - 1] == s[..n][1..];
      assert n - 1 < |t| ==> t[n - 1] == s[n];
      RunLenOfRun(t, n - 1);
    } else if |s| > 0 {
      assert !IsKeyChar(s[0]);
    }
  }

  // ---------------------------------------------------------------------------
  // Client side: '[' + msg.data.replace(/([a-z0-9]+)\:/gi, '"$1":') + ']'

  /** The literal scan: at each position try `[a-z0-9]+:`; the greedy run can
      only be followed by the colon at its maximal end. */
  function Requote(s: string): (r: string)
    ensures |r| >= |s|
  {
    if |s| == 0 then ""
    else
      var n := RunLen(s);
      if n > 0 && n < |s| && s[n] == ':' then "\"" + s[..n] + "\":" + Requote(s[n + 1..])
      else [s[0]] + Requote(s[1..])
  }

  /** The text the client hands to `JSON.parse`. */
  function Decode(data: string): (r: string)
    ensures |r| >= |data| + 2 && r[0] == '[' && r[|r| - 1] == ']'
  {
    "[" + Requote(data) + "]"
  }

  /** A reference reading of the client rewriting, run by run: every maximal
      run of key characters is quoted when a colon follows it and copied
      otherwise; every other character is copied. */
  function RequoteRuns(s: string): string
  {
    if |s| == 0 then ""
    else
      var n := RunLen(s);
      if n == 0 then [s[0]] + RequoteRuns(s[1..])
      else if n < |s| && s[n] == ':' then "\"" + s[..n] + "\":" + RequoteRuns(s[n + 1..])
      else s[..n] + RequoteRuns(s[n..])
  }

  /** Scanning from inside a run that no colon follows copies the run. */
  lemma {:induction false} RequoteSkipsRun(s: string, n: nat)
    requires 0 < n <= |s| && RunLen(s) == n && (n == |s| || s[n] != ':')
    ensures Requote(s) == s[..n] + Requote(s[n..])
    decreases n
  {
    if n > 1 {
      var t := s[1..];
      RunLenTail(s, n);
      calc {
        Requote(s);
        [s[0]] + Requote(t);
        { RequoteSkipsRun(t, n - 1); }
        [s[0]] + (t[..n - 1] + Requote(t[n - 1..]));
        { assert t[n - 1..] == s[n..]; assert s[..n] == [s[0]] + t[..n - 1]; }
        s[..n] + Requote(s[n..]);
      }
    } else {
      assert s[..1] == [s[0]];
    }
  }

  /** Inside a run, the run seen from the next character is one shorter. */
  lemma RunLenTail(s: string, n: nat)
    requires 1 < n <= |s| && RunLen(s) == n
    ensures RunLen(s[1..]) == n - 1
  {
    assert IsKeyChar(s[0]) by { assert s[..n][0] == s[0]; }
  }

  /** The literal scan of the regular expression and the run-by-run reading
      agree on every text. */
  lemma {:induction false} RequoteByRuns(s: string)
    ensures Requote(s) == RequoteRuns(s)
    decreases |s|
  {
    if |s| > 0 {
      var n := RunLen(s);
      if n == 0 {
        RequoteByRuns(s[1..]);
      } else if n < |s| && s[n] == ':' {
        RequoteByRuns(s[n + 1..]);
      } else {
        RequoteSkipsRun(s, n);
        RequoteByRuns(s[n..]);
      }
    }
  }

  /** Text without a colon reaches `JSON.parse` unchanged apart from the brackets. */
  lemma {:induction false} RequoteNoColon(s: string)
    requires ':' !in s
    ensures Requote(s) == s
    ensures Decode(s) == "[" + s + "]"
  {
    if |s| > 0 {
      assert ':' !in s[1..] by { assert forall i :: 0 <= i < |s| - 1 ==> s[1..][i] == s[i + 1]; }
      RequoteNoColon(s[1..]);
    }
  }

  /** The client rewriting only ever inserts double quotes. */
  lemma {:induction false} RequoteOnlyAddsQuotes(s: string)
    ensures DropQuotes(Requote(s)) == DropQuotes(s)
    decreases |s|
  {
    if |s| > 0 {
      var n := RunLen(s);
      if n > 0 && n < |s| && s[n] == ':' {
        var k := s[..n];
        var rest := s[n + 1..];
        assert '"' !in k;
        assert s == k + ":" + rest;
        RequoteOnlyAddsQuotes(rest);
        DropQuotesKey(k, rest);
        DropQuotesKey(k, Requote(rest));
      } else {
        RequoteOnlyAddsQuotes(s[1..]);
        assert ([s[0]] + Requote(s[1..]))[1..] == Requote(s[1..]);
      }
    }
  }

  /** A key the server unquoted is quoted again by the client, whatever
      follows it. */
  lemma KeyRoundTrip(k: string, t: string)
    requires |k| > 0 && AllKeyChars(k)
    ensures Requote(Unquote("\"" + k + "\":" + t)) == "\"" + k + "\":" + Requote(Unquote(t))
  {
    UnquoteKey(k, t);
    var u := k + ":" + Unquote(t);
    assert u[..|k|] == k;
    RunLenOfRun(u, |k|);
    assert u[|k| + 1..] == Unquote(t);
  }
}
