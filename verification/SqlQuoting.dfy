/** Quoted names and literals in the SQL the demos build, against the lexical rules they are read
    by: runner-kit/src/tidb.ts, aws-dms/runner/src/checksum.ts and okta/runner/src/sqlIdentifiers.ts,
    with ISO/IEC 9075-2 sections 5.2 and 5.3 and MySQL's backtick and backslash rules. */
module SqlQuoting {
  import opened Options
  import opened Decimals

  // s.replaceAll(c, c + c)
  function Double(s: string, c: char): string {
    if s == [] then [] else (if s[0] == c then [c, c] else [s[0]]) + Double(s[1..], c)
  }

  function Quoted(name: string, quote: char): string {
    [quote] + Double(name, quote) + [quote]
  }

  function QuoteIdentifier(name: string): string { Quoted(name, '`') }
  function QuotePostgresIdentifier(name: string): string { Quoted(name, '"') }

  function StringLiteral(value: string): Option<string> {
    if '\0' in value then None else Some("'" + TwicePassed(value) + "'")
  }

  // The two replacements, one after the other.
  function TwicePassed(value: string): string {
    Double(Double(value, '\\'), '\'')
  }

  // What follows an opening quote: the text up to the closing quote, and what is left after it.
  // A doubled quote stands for itself.
  function LexDelimited(text: string, quote: char): Option<(string, string)> {
    if text == [] then None
    else if text[0] != quote then Prepend(text[0], LexDelimited(text[1..], quote))
    else if 2 <= |text| && text[1] == quote then Prepend(quote, LexDelimited(text[2..], quote))
    else Some(("", text[1..]))
  }

  function Prepend(c: char, r: Option<(string, string)>): Option<(string, string)> {
    if r.Some? then Some(([c] + r.value.0, r.value.1)) else None
  }

  function LexIdentifier(text: string, quote: char): Option<(string, string)> {
    if text != [] && text[0] == quote then LexDelimited(text[1..], quote) else None
  }

  // MySQL's escapes; before any other character the backslash is dropped.
  function Unescaped(c: char): string {
    if c == '0' then "\0" else if c == 'b' then [8 as char] else if c == 'n' then "\n"
    else if c == 'r' then "\r" else if c == 't' then "\t" else if c == 'Z' then [26 as char]
    else if c == '%' || c == '_' then ['\\', c] else [c]
  }

  function LexLiteralBody(text: string): Option<(string, string)> {
    if text == [] then None
    else if text[0] == '\\' then
      if |text| == 1 then None
      else
        var r := LexLiteralBody(text[2..]);
        if r.Some? then Some((Unescaped(text[1]) + r.value.0, r.value.1)) else None
    else if text[0] != '\'' then Prepend(text[0], LexLiteralBody(text[1..]))
    else if 2 <= |text| && text[1] == '\'' then Prepend('\'', LexLiteralBody(text[2..]))
    else Some(("", text[1..]))
  }

  function LexLiteral(text: string): Option<(string, string)> {
    if text != [] && text[0] == '\'' then LexLiteralBody(text[1..]) else None
  }

  predicate StartsWith(text: string, c: char) {
    text != [] && text[0] == c
  }

  lemma {:induction false} DoubledIsRead(name: string, quote: char, rest: string)
    ensures StartsWith(rest, quote) || LexDelimited(Double(name, quote) + [quote] + rest, quote) == Some((name, rest))
    ensures StartsWith(rest, quote) ==>
              var r := LexDelimited(Double(name, quote) + [quote] + rest, quote);
              r.Some? ==> |name| < |r.value.0|
  {
    var text := Double(name, quote) + [quote] + rest;
    if name == [] {
      assert text == [quote] + rest;
      assert text[1..] == rest;
    } else {
      var tail := Double(name[1..], quote) + [quote] + rest;
      DoubledIsRead(name[1..], quote, rest);
      assert [name[0]] + name[1..] == name;
      if name[0] == quote {
        assert text == [quote, quote] + tail && text[2..] == tail;
      } else {
        assert text == [name[0]] + tail && text[1..] == tail;
      }
    }
  }

  // A quoted name reads back as the name and ends at its closing quote, whatever it contains,
  // exactly when the text after it does not begin with another quote.
  lemma QuotingRoundTrips(name: string, quote: char, rest: string)
    ensures LexIdentifier(Quoted(name, quote) + rest, quote) == Some((name, rest)) <==> !StartsWith(rest, quote)
  {
    assert (Quoted(name, quote) + rest)[1..] == Double(name, quote) + [quote] + rest;
    DoubledIsRead(name, quote, rest);
  }

  // The demos' own quotes: backticks for MySQL, double quotes for PostgreSQL.
  lemma IdentifiersRoundTrip(name: string, rest: string)
    ensures LexIdentifier(QuoteIdentifier(name) + rest, '`') == Some((name, rest)) <==> !StartsWith(rest, '`')
    ensures LexIdentifier(QuotePostgresIdentifier(name) + rest, '"') == Some((name, rest)) <==> !StartsWith(rest, '"')
  {
    QuotingRoundTrips(name, '`', rest);
    QuotingRoundTrips(name, '"', rest);
  }

  lemma DoubleCons(c: char, s: string, d: char)
    ensures Double([c] + s, d) == (if c == d then [d, d] else [c]) + Double(s, d)
  {
    assert ([c] + s)[1..] == s;
  }

  // What stands for one character of a literal's value.
  function Escape(c: char): string {
    if c == '\\' then ['\\', '\\'] else if c == '\'' then ['\'', '\''] else [c]
  }

  // The two passes of stringLiteral, one character at a time: a backslash doubles, then a quote
  // doubles, and neither pass touches what the other added.
  lemma TwoPasses(c: char, s: string)
    ensures TwicePassed([c] + s) == Escape(c) + TwicePassed(s)
  {
    var inner := Double(s, '\\');
    DoubleCons(c, s, '\\');
    DoubleCons(c, inner, '\'');
    if c == '\\' {
      assert [c, c] + inner == [c] + ([c] + inner);
      DoubleCons(c, [c] + inner, '\'');
    }
  }

  lemma LexEscape(c: char, tail: string)
    ensures LexLiteralBody(Escape(c) + tail) == Prepend(c, LexLiteralBody(tail))
  {
    var text := Escape(c) + tail;
    assert text[|Escape(c)|..] == tail;
  }

  lemma {:induction false} EscapedIsRead(value: string, rest: string)
    ensures var r := LexLiteralBody(TwicePassed(value) + "'" + rest);
            if StartsWith(rest, '\'') then r.Some? ==> |value| < |r.value.0| else r == Some((value, rest))
  {
    if value == [] {
      assert TwicePassed(value) + "'" + rest == "'" + rest && ("'" + rest)[1..] == rest;
    } else {
      var c, s := value[0], value[1..];
      var tail := TwicePassed(s) + "'" + rest;
      EscapedIsRead(s, rest);
      assert value == [c] + s;
      TwoPasses(c, s);
      assert TwicePassed(value) + "'" + rest == Escape(c) + tail;
      LexEscape(c, tail);
    }
  }

  // A literal is refused exactly for a NUL; otherwise it reads back as its value and ends at its
  // closing quote, exactly when no further quote follows.
  lemma LiteralRoundTrips(value: string, rest: string)
    ensures StringLiteral(value) == None <==> '\0' in value
    ensures StringLiteral(value).Some? ==>
              (LexLiteral(StringLiteral(value).value + rest) == Some((value, rest)) <==> !StartsWith(rest, '\''))
  {
    if StringLiteral(value).Some? {
      assert (StringLiteral(value).value + rest)[1..] == TwicePassed(value) + "'" + rest;
      EscapedIsRead(value, rest);
    }
  }

  predicate LowerOrDigit(c: char) {
    IsDigit(c) || 'a' <= c <= 'z'
  }

  // The pattern ^[a-z0-9][a-z0-9._-]{0,31}$.
  predicate SafeUsername(username: string) {
    && 1 <= |username| <= 32 && LowerOrDigit(username[0])
    && forall i :: 0 <= i < |username| ==> LowerOrDigit(username[i]) || username[i] in "._-"
  }

  function AccountName(username: string): Option<string> {
    if SafeUsername(username) then Some(QuoteIdentifier(username) + "@" + QuoteIdentifier("%")) else None
  }

  // A user name is refused exactly if it is empty, longer than 32 characters, begins with something
  // else than a lowercase letter or a digit, or has anywhere else than these a character other than
  // dot, underscore and dash. An account name is read as the user, an @ and the any-host pattern.
  lemma AccountNameIsRead(username: string, rest: string)
    requires !StartsWith(rest, '`')
    ensures AccountName(username) == None <==>
            || username == [] || 32 < |username|
            || !('a' <= username[0] <= 'z' || '0' <= username[0] <= '9')
            || exists i :: 0 <= i < |username| &&
                           !('a' <= username[i] <= 'z' || '0' <= username[i] <= '9'
                             || username[i] == '.' || username[i] == '_' || username[i] == '-')
    ensures AccountName(username).Some? ==>
              var host := "@" + QuoteIdentifier("%") + rest;
              && LexIdentifier(AccountName(username).value + rest, '`') == Some((username, host))
              && LexIdentifier(host[1..], '`') == Some(("%", rest))
  {
    if AccountName(username).Some? {
      var host := "@" + QuoteIdentifier("%") + rest;
      assert AccountName(username).value + rest == QuoteIdentifier(username) + host;
      QuotingRoundTrips(username, '`', host);
      assert host[1..] == QuoteIdentifier("%") + rest;
      QuotingRoundTrips("%", '`', rest);
    }
  }
}
