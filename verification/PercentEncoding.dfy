/** Percent-encoding of path values, `quote(value, safe="")` in `src/netcorenoc/api/asgi_call.py`. */
module PercentEncoding {
  import opened Wrappers

  type Byte = b: int | 0 <= b < 256

  /** The unreserved characters of section 2.3 of RFC 3986, which are never escaped. */
  predicate Unreserved(c: char) {
    'a' <= c <= 'z' || 'A' <= c <= 'Z' || '0' <= c <= '9' || c in {'-', '.', '_', '~'}
  }

  function Hex(n: int): char
    requires 0 <= n < 16
  {
    if n < 10 then ('0' as int + n) as char else ('A' as int + n - 10) as char
  }

  function Digit(c: char): Option<int> {
    if '0' <= c <= '9' then Some(c as int - '0' as int)
    else if 'A' <= c <= 'F' then Some(c as int - 'A' as int + 10)
    else None
  }

  function Escape(b: Byte): string {
    if b < 128 && Unreserved(b as char) then [b as char] else ['%', Hex(b / 16), Hex(b % 16)]
  }

  /** `quote(value, safe="")`, of a value's bytes. */
  function Quote(value: seq<Byte>): string {
    if value == [] then "" else Escape(value[0]) + Quote(value[1..])
  }

  /** What becomes of one byte, by its number: the letters, the digits, and `-`, `.`, `_`, `~` stay, and any
      other becomes a percent sign and two digits, the high one first. */
  lemma EscapeTells(b: Byte)
    ensures var kept := 65 <= b <= 90 || 97 <= b <= 122 || 48 <= b <= 57 || b in {45, 46, 95, 126};
            var digits := "0123456789ABCDEF";
            && (kept ==> |Escape(b)| == 1 && Escape(b)[0] as int == b)
            && (!kept ==> Escape(b) == ['%', digits[b / 16], digits[b % 16]])
  {
    if b < 128 {
      var c := b as char;
      assert c as int == b;
    }
    HexTells(b / 16);
    HexTells(b % 16);
  }

  lemma HexTells(n: int)
    requires 0 <= n < 16
    ensures Hex(n) == "0123456789ABCDEF"[n]
  {
  }

  /** A value is encoded byte by byte: joined values encode as their joined encodings. */
  lemma {:induction false} QuoteTells(a: seq<Byte>, b: seq<Byte>)
    ensures Quote(a + b) == Quote(a) + Quote(b)
    ensures |a| == 1 ==> Quote(a) == Escape(a[0])
  {
    if a == [] {
      assert a + b == b;
    } else {
      assert (a + b)[1..] == a[1..] + b;
      QuoteTells(a[1..], b);
    }
  }

  /** Reading a path segment back, section 2.1 of RFC 3986. */
  function Unquote(s: string): Option<seq<Byte>> {
    if s == "" then Some([])
    else if s[0] == '%' then
      if |s| < 3 || Digit(s[1]) == None || Digit(s[2]) == None then None
      else
        var rest := Unquote(s[3..]);
        if rest == None then None else Some([Digit(s[1]).value * 16 + Digit(s[2]).value] + rest.value)
    else if s[0] as int >= 128 then None
    else
      var rest := Unquote(s[1..]);
      if rest == None then None else Some([s[0] as int] + rest.value)
  }

  /** A value survives the path: decoding gives it back. */
  lemma {:induction false} QuoteRoundTrips(value: seq<Byte>)
    ensures Unquote(Quote(value)) == Some(value)
  {
    if value != [] {
      var first, rest := value[0], value[1..];
      QuoteRoundTrips(rest);
      EscapeRoundTrips(first, Quote(rest));
      assert value == [first] + rest;
    }
  }

  lemma EscapeRoundTrips(b: Byte, rest: string)
    requires Unquote(rest) != None
    ensures Unquote(Escape(b) + rest) == Some([b] + Unquote(rest).value)
  {
    var s := Escape(b) + rest;
    if b < 128 && Unreserved(b as char) {
      assert s[1..] == rest;
    } else {
      assert s[3..] == rest;
      HexDigit(b / 16);
      HexDigit(b % 16);
    }
  }

  lemma HexDigit(n: int)
    requires 0 <= n < 16
    ensures Digit(Hex(n)) == Some(n)
  {
  }

  /** An encoded value holds no brace and no slash. */
  predicate Plain(s: string) {
    forall i :: 0 <= i < |s| ==> s[i] !in {'{', '}', '/'}
  }

  lemma {:induction false} QuotePlain(value: seq<Byte>)
    ensures Plain(Quote(value))
  {
    if value != [] {
      QuotePlain(value[1..]);
    }
  }
}
