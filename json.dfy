/**
 * The part of Python's `json.dumps` that the streamed batch response uses:
 * string literals under the default `ensure_ascii=True` escaping, and
 * non-negative integers in decimal. Everything it produces is printable
 * ASCII, so an encoded value never contains a line break.
 */
module Json {

  /** Every character lies between space and tilde. */
  predicate Printable(s: string)
  {
    forall i :: 0 <= i < |s| ==> ' ' <= s[i] <= '~'
  }

  /** A character that `json.dumps` copies to its output unchanged. */
  predicate Verbatim(c: char)
  {
    ' ' <= c <= '~' && c != '"' && c != '\\'
  }

  const HexDigits: string := "0123456789abcdef"

  /** Four lower-case hexadecimal digits, as `'{0:04x}'.format(n)` writes them. */
  function Hex4(n: nat): (r: string)
    requires n < 0x10000
    ensures |r| == 4 && Printable(r)
  {
    [HexDigits[n / 0x1000], HexDigits[n / 0x100 % 16], HexDigits[n / 0x10 % 16], HexDigits[n % 16]]
  }

  /**
   * One character as the ASCII-only string encoder writes it: the short
   * escapes for quote, backslash and five control characters, the character
   * itself between space and tilde, `\uXXXX` for the rest of the basic plane
   * and a surrogate pair above it.
   */
  function EscapeChar(c: char): (r: string)
    ensures Printable(r)
    ensures r == [c] <==> Verbatim(c)
  {
    if c == '"' then "\\\""
    else if c == '\\' then "\\\\"
    else if c == '\n' then "\\n"
    else if c == '\r' then "\\r"
    else if c == '\t' then "\\t"
    else if c == '\U{8}' then "\\b"
    else if c == '\U{C}' then "\\f"
    else if ' ' <= c <= '~' then [c]
    else if c as int < 0x10000 then "\\u" + Hex4(c as int)
    else
      var n := c as int - 0x10000;
      "\\u" + Hex4(0xD800 + n / 0x400) + "\\u" + Hex4(0xDC00 + n % 0x400)
  }

  /** The body of a JSON string literal for `s`. */
  function Escape(s: string): (r: string)
    ensures Printable(r)
    ensures (forall i :: 0 <= i < |s| ==> Verbatim(s[i])) ==> r == s
  {
    if s == [] then [] else EscapeChar(s[0]) + Escape(s[1..])
  }

  /** A JSON string literal. */
  function Quote(s: string): (r: string)
    ensures Printable(r)
    ensures |r| >= 2 && r[0] == '"' && r[|r| - 1] == '"'
  {
    "\"" + Escape(s) + "\""
  }

  /** The value of a digit character. */
  function DigitValue(c: char): nat
    requires '0' <= c <= '9'
  {
    c as nat - '0' as nat
  }

  /** The number a run of decimal digits denotes. */
  function DecimalValue(s: string): nat
    requires forall i :: 0 <= i < |s| ==> '0' <= s[i] <= '9'
  {
    if s == [] then 0 else 10 * DecimalValue(s[..|s| - 1]) + DigitValue(s[|s| - 1])
  }

  /** Python's `str(n)` for a non-negative integer: its decimal digits, without leading zeros. */
  function NatText(n: nat): (r: string)
    ensures |r| >= 1
    ensures forall i :: 0 <= i < |r| ==> '0' <= r[i] <= '9'
    ensures DecimalValue(r) == n
    ensures r[0] == '0' ==> r == "0"
    ensures Printable(r)
  {
    if n < 10 then ["0123456789"[n]]
    else
      var front := NatText(n / 10);
      var r := front + ["0123456789"[n % 10]];
      assert r[..|r| - 1] == front;
      r
  }

  /** Printable text has no line break, so one encoded value is one line. */
  lemma PrintableHasNoNewline(s: string)
    requires Printable(s)
    ensures '\n' !in s
  {
    forall i | 0 <= i < |s| ensures s[i] != '\n' {
      assert ' ' <= s[i];
    }
  }

  /** Printable pieces make printable text. */
  lemma PrintableConcat(a: string, b: string)
    requires Printable(a) && Printable(b)
    ensures Printable(a + b)
  {
    forall i | 0 <= i < |a + b| ensures ' ' <= (a + b)[i] <= '~' {
      if i < |a| { assert (a + b)[i] == a[i]; } else { assert (a + b)[i] == b[i - |a|]; }
    }
  }
}
