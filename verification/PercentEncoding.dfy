/** Percent-encoding of path segments, section 2.1 of RFC 3986, as url.PathEscape applies it and a
    server undoes it. Text is a sequence of bytes, written as characters below 256. */
module PercentEncoding {
  import opened Options

  predicate ByteText(s: string) { forall i :: 0 <= i < |s| ==> s[i] < 256 as char }

  /** The bytes a segment may hold unescaped: letters, digits, -_.~ and $&+=:@ */
  predicate Kept(c: char) {
    || 'a' <= c <= 'z' || 'A' <= c <= 'Z' || '0' <= c <= '9'
    || c == '-' || c == '_' || c == '.' || c == '~'
    || c == '$' || c == '&' || c == '+' || c == '=' || c == ':' || c == '@'
  }

  function HexDigit(d: int): char
    requires 0 <= d < 16
  {
    if d < 10 then '0' + d as char else 'A' + (d - 10) as char
  }

  function HexValue(c: char): Option<int> {
    if '0' <= c <= '9' then Some(c as int - '0' as int)
    else if 'A' <= c <= 'F' then Some(c as int - 'A' as int + 10)
    else if 'a' <= c <= 'f' then Some(c as int - 'a' as int + 10)
    else None
  }

  lemma HexRoundTrip(d: int)
    requires 0 <= d < 16
    ensures HexValue(HexDigit(d)) == Some(d)
  {
  }

  function EscapeByte(c: char): string
    requires c < 256 as char
  {
    if Kept(c) then [c] else ['%', HexDigit(c as int / 16), HexDigit(c as int % 16)]
  }

  function PathEscape(s: string): string
    requires ByteText(s)
  {
    if s == "" then "" else EscapeByte(s[0]) + PathEscape(s[1..])
  }

  /** Decoding a path: None for a malformed escape. */
  function Unescape(s: string): (r: Option<string>)
    decreases |s|
  {
    if s == "" then Some("")
    else if s[0] == '%' then
      if |s| < 3 || HexValue(s[1]).None? || HexValue(s[2]).None? then None
      else
        var rest := Unescape(s[3..]);
        if rest.None? then None else Some([(HexValue(s[1]).value * 16 + HexValue(s[2]).value) as char] + rest.value)
    else
      var rest := Unescape(s[1..]);
      if rest.None? then None else Some([s[0]] + rest.value)
  }

  function Before(s: string, o: Option<string>): Option<string> { if o.None? then None else Some(s + o.value) }

  lemma BeforeTwice(c: char, s: string, o: Option<string>)
    ensures Before([c], Before(s, o)) == Before([c] + s, o)
  {
    assert o.Some? ==> [c] + (s + o.value) == [c] + s + o.value;
  }

  /** Decoding undoes encoding, whatever text follows. */
  lemma {:induction false} EscapeUndone(s: string, tail: string)
    requires ByteText(s)
    ensures Unescape(PathEscape(s) + tail) == Before(s, Unescape(tail))
  {
    if s == "" {
      assert PathEscape(s) + tail == tail;
      assert Unescape(tail).Some? ==> s + Unescape(tail).value == Unescape(tail).value;
    } else {
      var e, rest := EscapeByte(s[0]), PathEscape(s[1..]);
      EscapeUndone(s[1..], tail);
      ByteUndone(s[0], rest + tail);
      BeforeTwice(s[0], s[1..], Unescape(tail));
      assert [s[0]] + s[1..] == s && e + rest + tail == e + (rest + tail);
    }
  }

  lemma ByteUndone(c: char, tail: string)
    requires c < 256 as char
    ensures Unescape(EscapeByte(c) + tail) == Before([c], Unescape(tail))
  {
    var s := EscapeByte(c) + tail;
    if Kept(c) {
      assert s[1..] == tail;
    } else {
      HexRoundTrip(c as int / 16);
      HexRoundTrip(c as int % 16);
      assert s[3..] == tail;
    }
  }

  /** Encoded text holds nothing that could end the segment or the path. */
  lemma {:induction false} EscapedIsSafe(s: string)
    requires ByteText(s)
    ensures forall i :: 0 <= i < |PathEscape(s)| ==> Kept(PathEscape(s)[i]) || PathEscape(s)[i] == '%'
  {
    if s != "" {
      EscapedIsSafe(s[1..]);
      var e, rest := EscapeByte(s[0]), PathEscape(s[1..]);
      forall i | 0 <= i < |e + rest| ensures Kept((e + rest)[i]) || (e + rest)[i] == '%' {
        if i >= |e| {
          assert (e + rest)[i] == rest[i - |e|];
        }
      }
    }
  }

  /** Which bytes stay as they are, by their codes: $ & + - . digits : = @ capitals _ letters ~ */
  lemma KeptExact(c: char)
    ensures var n := c as int;
            Kept(c) <==> n in {36, 38, 43, 45, 46, 61, 95, 126} || 48 <= n < 59 || 64 <= n < 91 || 97 <= n < 123
  {
  }

  /** Which characters are hexadecimal digits, and what they are worth. */
  lemma HexExact(c: char)
    ensures var n := c as int;
            HexValue(c) == if 48 <= n < 58 then Some(n - 48) else if 65 <= n < 71 then Some(n - 55) else if 97 <= n < 103 then Some(n - 87) else None
  {
  }
}
