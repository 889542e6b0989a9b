/**
 * String operations the source takes from .NET: white-space tests, ordinal prefix and
 * case-insensitive suffix tests, the Markdown `|`-escaping both report writers use, table rows,
 * decimal rendering of integers, and line joining (StringBuilder.AppendLine).
 */
module Text {
  import opened Wrappers

  /** `char.IsWhiteSpace`: the characters of Unicode's White_Space property. */
  predicate IsWhiteSpaceChar(c: char)
  {
    ('\U{0009}' <= c <= '\U{000D}') || c == ' ' || c == '\U{0085}' || c == '\U{00A0}'
    || c == '\U{1680}' || ('\U{2000}' <= c <= '\U{200A}') || c == '\U{2028}' || c == '\U{2029}'
    || c == '\U{202F}' || c == '\U{205F}' || c == '\U{3000}'
  }

  /** `string.IsNullOrWhiteSpace` on a non-null string: empty or white space only. */
  predicate IsWhiteSpace(s: string)
  {
    forall i :: 0 <= i < |s| ==> IsWhiteSpaceChar(s[i])
  }

  /** `StartsWith(prefix, StringComparison.Ordinal)`: a purely textual prefix test. */
  predicate StartsWith(s: string, prefix: string)
  {
    prefix <= s
  }

  function ToUpperAscii(c: char): char
  {
    if 'a' <= c <= 'z' then (c as int - 32) as char else c
  }

  /** `EndsWith(suffix, StringComparison.OrdinalIgnoreCase)`, folding the case of ASCII letters. */
  predicate EndsWithIgnoreCase(s: string, suffix: string)
  {
    |suffix| <= |s| &&
    forall i :: 0 <= i < |suffix| ==> ToUpperAscii(s[|s| - |suffix| + i]) == ToUpperAscii(suffix[i])
  }

  // ---------------------------------------------------------------------------------------------
  // Markdown escaping

  /** `value.Replace("|", "\\|")`: every `|` becomes `\|`, every other character is kept. */
  function Escape(s: string): string
  {
    if s == [] then [] else (if s[0] == '|' then "\\|" else [s[0]]) + Escape(s[1..])
  }

  /** The inverse reading of an escaped cell: `\|` stands for `|`. */
  function Unescape(s: string): string
  {
    if s == [] then []
    else if |s| >= 2 && s[0] == '\\' && s[1] == '|' then "|" + Unescape(s[2..])
    else [s[0]] + Unescape(s[1..])
  }

  /** The number of `|` a Markdown table reader takes as column separators (those not written `\|`). */
  function BarePipes(s: string): nat
  {
    if s == [] then 0
    else if s[0] == '|' then 1 + BarePipes(s[1..])
    else if |s| >= 2 && s[0] == '\\' && s[1] == '|' then BarePipes(s[2..])
    else BarePipes(s[1..])
  }

  lemma {:induction false} EscapeNeverStartsWithPipe(s: string)
    ensures Escape(s) == [] || Escape(s)[0] != '|'
  {
  }

  /** Escaping only inserts backslashes: the escaped text has every character of the original. */
  lemma {:induction false} EscapeLength(s: string)
    ensures |Escape(s)| >= |s|
    ensures Escape(s) == [] <==> s == []
  {
    if s != [] {
      EscapeLength(s[1..]);
    }
  }

  /** Reading an escaped cell back gives the original text. */
  lemma {:induction false} EscapeRoundTrip(s: string)
    ensures Unescape(Escape(s)) == s
  {
    if s != [] {
      var rest := Escape(s[1..]);
      EscapeRoundTrip(s[1..]);
      EscapeNeverStartsWithPipe(s[1..]);
      if s[0] == '|' {
        assert Escape(s) == "\\|" + rest;
        assert (("\\|" + rest)[2..]) == rest;
      } else {
        assert Escape(s) == [s[0]] + rest;
        assert ([s[0]] + rest)[1..] == rest;
      }
    }
  }

  /** Escaping changes a text exactly when it contains a `|`. */
  lemma {:induction false} EscapeIdentity(s: string)
    ensures Escape(s) == s <==> '|' !in s
  {
    if s != [] {
      EscapeIdentity(s[1..]);
      EscapeLength(s[1..]);
      if s[0] == '|' {
        assert |Escape(s)| > |s|;
      } else {
        assert Escape(s) == [s[0]] + Escape(s[1..]);
        assert s == [s[0]] + s[1..];
      }
    }
  }

  /** An escaped cell holds no column separator. */
  lemma {:induction false} EscapeHasNoBarePipe(s: string)
    ensures BarePipes(Escape(s)) == 0
  {
    if s != [] {
      var rest := Escape(s[1..]);
      EscapeHasNoBarePipe(s[1..]);
      EscapeNeverStartsWithPipe(s[1..]);
      if s[0] == '|' {
        assert Escape(s) == "\\|" + rest;
        assert (("\\|" + rest)[2..]) == rest;
      } else {
        assert Escape(s) == [s[0]] + rest;
        assert ([s[0]] + rest)[1..] == rest;
      }
    }
  }

  /** Separators of a concatenation add up when the second part does not start with `|`. */
  lemma {:induction false} BarePipesConcat(a: string, b: string)
    requires b == [] || b[0] != '|'
    ensures BarePipes(a + b) == BarePipes(a) + BarePipes(b)
  {
    if a == [] {
      assert a + b == b;
    } else if a[0] == '|' {
      assert (a + b)[1..] == a[1..] + b;
      BarePipesConcat(a[1..], b);
    } else if |a| >= 2 && a[0] == '\\' && a[1] == '|' {
      assert (a + b)[2..] == a[2..] + b;
      BarePipesConcat(a[2..], b);
    } else {
      assert (a + b)[1..] == a[1..] + b;
      BarePipesConcat(a[1..], b);
    }
  }

  // ---------------------------------------------------------------------------------------------
  // Markdown table rows

  function JoinCells(cells: seq<string>): string
  {
    if |cells| == 0 then []
    else if |cells| == 1 then cells[0]
    else cells[0] + " | " + JoinCells(cells[1..])
  }

  /** The row `| c1 | c2 | ... | cn |` written by the interpolated strings of both writers. */
  function TableRow(cells: seq<string>): string
  {
    "| " + JoinCells(cells) + " |"
  }

  /** A cell that a table reader cannot split and that does not open with a separator. */
  predicate SafeCell(c: string)
  {
    BarePipes(c) == 0 && (c == [] || c[0] != '|')
  }

  lemma {:induction false} JoinCellsSeparators(cells: seq<string>)
    requires |cells| >= 1
    requires forall i :: 0 <= i < |cells| ==> SafeCell(cells[i])
    ensures BarePipes(JoinCells(cells)) == |cells| - 1
    ensures JoinCells(cells) == [] || JoinCells(cells)[0] != '|'
  {
    if |cells| > 1 {
      var rest := JoinCells(cells[1..]);
      JoinCellsSeparators(cells[1..]);
      assert JoinCells(cells) == cells[0] + (" | " + rest);
      BarePipesConcat(" | ", rest);
      assert BarePipes(" | ") == 1;
      BarePipesConcat(cells[0], " | " + rest);
      if cells[0] == [] {
        assert JoinCells(cells)[0] == ' ';
      } else {
        assert JoinCells(cells)[0] == cells[0][0];
      }
    }
  }

  /** A row of n safe cells has exactly n + 1 column separators, whatever the cells contain. */
  lemma TableRowColumns(cells: seq<string>)
    requires |cells| >= 1
    requires forall i :: 0 <= i < |cells| ==> SafeCell(cells[i])
    ensures BarePipes(TableRow(cells)) == |cells| + 1
  {
    var body := JoinCells(cells);
    JoinCellsSeparators(cells);
    assert TableRow(cells) == "| " + (body + " |");
    BarePipesConcat(body, " |");
    assert BarePipes(" |") == 1;
    assert BarePipes("| " + (body + " |")) == 1 + BarePipes(body + " |") by {
      assert ("| " + (body + " |"))[1..] == " " + (body + " |");
      assert (" " + (body + " |"))[1..] == body + " |";
    }
  }

  /** An escaped text, possibly wrapped in backticks, is a safe cell. */
  lemma EscapedCellIsSafe(s: string)
    ensures SafeCell(Escape(s))
    ensures SafeCell("`" + Escape(s) + "`")
  {
    EscapeHasNoBarePipe(s);
    EscapeNeverStartsWithPipe(s);
    BarePipesConcat(Escape(s), "`");
    assert ("`" + (Escape(s) + "`"))[1..] == Escape(s) + "`";
    assert "`" + Escape(s) + "`" == "`" + (Escape(s) + "`");
  }

  // ---------------------------------------------------------------------------------------------
  // Decimal rendering of integers: ASCII digits, with '-' as the minus sign

  predicate IsDigit(c: char)
  {
    '0' <= c <= '9'
  }

  predicate AllDigits(s: string)
  {
    forall i :: 0 <= i < |s| ==> IsDigit(s[i])
  }

  function DigitChar(d: int): (c: char)
    requires 0 <= d < 10
  {
    ('0' as int + d) as char
  }

  function NatToString(n: nat): (s: string)
    ensures |s| >= 1 && AllDigits(s)
    decreases n
  {
    if n < 10 then [DigitChar(n)] else NatToString(n / 10) + [DigitChar(n % 10)]
  }

  /** How `$"{i}"` renders an integer: an optional minus sign and the decimal digits. */
  function IntToString(i: int): (s: string)
    ensures s != [] && '/' !in s && s[0] != '|'
  {
    if i < 0 then "-" + NatToString(-i) else NatToString(i)
  }

  function DigitsValue(s: string): nat
    requires AllDigits(s)
  {
    if s == [] then 0
    else
      assert IsDigit(s[|s| - 1]);
      10 * DigitsValue(s[..|s| - 1]) + (s[|s| - 1] as int - '0' as int)
  }

  /** The reading of a decimal integer, the inverse of IntToString. */
  function ParseInt(s: string): Option<int>
  {
    if |s| >= 2 && s[0] == '-' && AllDigits(s[1..]) then Some(0 - DigitsValue(s[1..]) as int)
    else if |s| >= 1 && AllDigits(s) then Some(DigitsValue(s))
    else None
  }

  lemma {:induction false} NatToStringValue(n: nat)
    ensures DigitsValue(NatToString(n)) == n
    decreases n
  {
    if n >= 10 {
      NatToStringValue(n / 10);
      var s := NatToString(n / 10) + [DigitChar(n % 10)];
      assert s[..|s| - 1] == NatToString(n / 10);
    }
  }

  /** A rendered integer reads back as itself. */
  lemma IntToStringRoundTrip(i: int)
    ensures ParseInt(IntToString(i)) == Some(i)
  {
    if i < 0 {
      NatToStringValue(-i);
      assert ("-" + NatToString(-i))[1..] == NatToString(-i);
    } else {
      NatToStringValue(i);
    }
  }

  /** The position of the first occurrence of `c`. */
  function IndexOf(s: string, c: char): (r: Option<nat>)
    ensures r.Some? ==> r.value < |s| && s[r.value] == c && c !in s[..r.value]
    ensures r.None? ==> c !in s
  {
    if s == [] then None
    else if s[0] == c then Some(0)
    else match IndexOf(s[1..], c)
      case None => None
      case Some(k) => assert s[..k + 1] == [s[0]] + s[1..][..k]; Some(k + 1)
  }

  lemma IndexOfAfter(x: string, c: char, y: string)
    requires c !in x
    ensures IndexOf(x + [c] + y, c) == Some(|x|)
  {
    var s := x + [c] + y;
    assert s[|x|] == c;
    assert s[..|x|] == x;
  }

  // ---------------------------------------------------------------------------------------------
  // StringBuilder.AppendLine

  const NewLine: string := "\n"

  /** The text of a StringBuilder after one AppendLine per line. */
  function Lines(lines: seq<string>): string
  {
    if lines == [] then [] else Lines(lines[..|lines| - 1]) + lines[|lines| - 1] + NewLine
  }
}
