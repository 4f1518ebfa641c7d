/**
 * The two pieces of JavaScript string conversion the handlers rely on:
 * rendering a non-negative integer in decimal (`'SENDING LEVELS ' + n`,
 * `${databaseState}`) and `Array.prototype.join`.
 */
module Text {

  predicate IsDigit(c: char) {
    '0' <= c <= '9'
  }

  predicate AllDigits(s: string) {
    forall i | 0 <= i < |s| :: IsDigit(s[i])
  }

  function DigitChar(d: nat): (c: char)
    requires d < 10
    ensures IsDigit(c) && c as int - '0' as int == d
  {
    ('0' as int + d) as char
  }

  /** Decimal rendering of a count, as JavaScript's `String(n)` does for a non-negative integer. */
  function NatToString(n: nat): (s: string)
    ensures 1 <= |s| && AllDigits(s)
    ensures |s| > 1 ==> s[0] != '0'
  {
    if n < 10 then [DigitChar(n)] else NatToString(n / 10) + [DigitChar(n % 10)]
  }

  /** Reading a decimal numeral back: the partner of NatToString. */
  function ParseDecimal(s: string): nat
    requires AllDigits(s)
  {
    if s == [] then 0 else 10 * ParseDecimal(s[..|s| - 1]) + (s[|s| - 1] as int - '0' as int)
  }

  /** The count written into a log line can be read back exactly. */
  lemma {:induction false} ParseNatToString(n: nat)
    ensures ParseDecimal(NatToString(n)) == n
  {
    var s := NatToString(n);
    if n >= 10 {
      ParseNatToString(n / 10);
      assert s[..|s| - 1] == NatToString(n / 10);
    }
  }

  /** Distinct counts give distinct renderings. */
  lemma NatToStringInjective(m: nat, n: nat)
    requires NatToString(m) == NatToString(n)
    ensures m == n
  {
    ParseNatToString(m);
    ParseNatToString(n);
  }

  /** The number of characters in all the lines together. */
  function TotalLength(lines: seq<string>): nat {
    if lines == [] then 0 else |lines[0]| + TotalLength(lines[1..])
  }

  /** `lines.join(sep)`: the lines with one separator between neighbours. */
  function Join(lines: seq<string>, sep: string): (r: string)
    ensures |r| == TotalLength(lines) + (if lines == [] then 0 else (|lines| - 1) * |sep|)
  {
    if lines == [] then ""
    else if |lines| == 1 then lines[0]
    else lines[0] + sep + Join(lines[1..], sep)
  }

  /** Joining a longer list extends the text of the shorter one by one separator and the new line. */
  lemma {:induction false} JoinSnoc(lines: seq<string>, line: string, sep: string)
    requires lines != []
    ensures Join(lines + [line], sep) == Join(lines, sep) + sep + line
  {
    if |lines| > 1 {
      JoinSnoc(lines[1..], line, sep);
      assert (lines + [line])[1..] == lines[1..] + [line];
    }
  }

  /** Appending lines only ever extends the joined text: what was shown before is still its prefix. */
  lemma {:induction false} JoinPrefix(lines: seq<string>, more: seq<string>, sep: string)
    ensures Join(lines, sep) <= Join(lines + more, sep)
  {
    if more != [] {
      var init := more[..|more| - 1];
      JoinPrefix(lines, init, sep);
      assert lines + more == (lines + init) + [more[|more| - 1]];
      if lines + init != [] {
        JoinSnoc(lines + init, more[|more| - 1], sep);
      }
    } else {
      assert lines + more == lines;
    }
  }
}
