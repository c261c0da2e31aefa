/** The ECMAScript string operations the application relies on: trim,
    toLowerCase (on ASCII letters), includes, and String() of an integer. */
module JsStrings {

  /** WhiteSpace and LineTerminator code points of ECMAScript: tab, vertical
      tab, form feed, space, no-break space, byte order mark, the Zs space
      separators, and line feed, carriage return, line and paragraph separator. */
  predicate IsJsWhitespace(c: char) {
    var n := c as int;
    (0x09 <= n <= 0x0D) || n == 0x20 || n == 0xA0 || n == 0x1680
    || (0x2000 <= n <= 0x200A) || n == 0x2028 || n == 0x2029
    || n == 0x202F || n == 0x205F || n == 0x3000 || n == 0xFEFF
  }

  /** `s` without its leading white space. */
  function TrimStart(s: string): (r: string)
    ensures |r| <= |s| && r == s[|s| - |r|..]
    ensures r == [] || !IsJsWhitespace(r[0])
    ensures forall i :: 0 <= i < |s| - |r| ==> IsJsWhitespace(s[i])
  {
    if s != [] && IsJsWhitespace(s[0]) then TrimStart(s[1..]) else s
  }

  /** `s` without its trailing white space. */
  function TrimEnd(s: string): (r: string)
    ensures |r| <= |s| && r == s[..|r|]
    ensures r == [] || !IsJsWhitespace(r[|r| - 1])
    ensures forall i :: |r| <= i < |s| ==> IsJsWhitespace(s[i])
  {
    if s != [] && IsJsWhitespace(s[|s| - 1]) then TrimEnd(s[..|s| - 1]) else s
  }

  /** String.prototype.trim: the longest slice of `s` that neither starts nor ends
      with white space; empty exactly when `s` is all white space. */
  function Trim(s: string): (r: string)
    ensures r == [] || (!IsJsWhitespace(r[0]) && !IsJsWhitespace(r[|r| - 1]))
    ensures var k := |s| - |TrimStart(s)|;
            k + |r| <= |s| && r == s[k..k + |r|]
            && (forall i :: 0 <= i < k ==> IsJsWhitespace(s[i]))
            && (forall i :: k + |r| <= i < |s| ==> IsJsWhitespace(s[i]))
    ensures r == [] <==> forall i :: 0 <= i < |s| ==> IsJsWhitespace(s[i])
  {
    TrimEnd(TrimStart(s))
  }

  /** Trimming twice is trimming once. */
  lemma TrimIdempotent(s: string)
    ensures Trim(Trim(s)) == Trim(s)
  {
    var t := Trim(s);
    if t != [] {
      assert TrimStart(t) == t;
      assert TrimEnd(t) == t;
    }
  }

  /** Leading and trailing blanks go and inner text stays. */
  lemma TrimExample()
    ensures Trim(" INV-1\t") == "INV-1"
  {
    var inner := "INV-1";
    var padded := " INV-1\t";
    assert !IsJsWhitespace(inner[0]) && !IsJsWhitespace(inner[4]);
    assert TrimStart(inner + "\t") == inner + "\t";
    assert TrimEnd(inner) == inner;
    assert (inner + "\t")[..5] == inner;
    assert TrimEnd(inner + "\t") == inner;
    assert padded[1..] == inner + "\t";
    assert IsJsWhitespace(padded[0]);
    assert TrimStart(padded) == inner + "\t";
  }

  lemma TrimExampleInner()
    ensures Trim("A B") == "A B"
  {
    assert TrimStart("A B") == "A B";
    assert TrimEnd("A B") == "A B";
  }

  lemma TrimExampleBlank()
    ensures Trim(" \n") == ""
  {
    assert " \n"[1..] == "\n" && "\n"[1..] == "";
  }

  /** The capitals of Basic Latin (A–Z) and of Latin-1 (À–Þ, except the
      multiplication sign ×): each lies 32 code points below its small letter. */
  predicate IsLatinCapital(c: char) {
    ('A' <= c <= 'Z') || ('\U{C0}' <= c <= '\U{DE}' && c != '\U{D7}')
  }

  /** One character of toLowerCase: a Latin capital becomes its small letter. */
  function LowerChar(c: char): (r: char)
    ensures IsLatinCapital(c) ==> r as int == c as int + 32
    ensures !IsLatinCapital(c) ==> r == c
    ensures !IsLatinCapital(r)
  {
    if IsLatinCapital(c) then (c as int + 32) as char else c
  }

  /** 'É' lowers to 'é' and 'Ñ' to 'ñ'; the sign '×' is kept. */
  lemma LowerCharLatinExamples()
    ensures LowerChar('\U{C9}') == '\U{E9}' && LowerChar('\U{D1}') == '\U{F1}'
    ensures LowerChar('\U{D7}') == '\U{D7}' && LowerChar('Q') == 'q' && LowerChar('7') == '7'
  {
  }

  /** String.prototype.toLowerCase, restricted to the Latin capitals. */
  function ToLowerCase(s: string): (r: string)
    ensures |r| == |s|
    ensures forall i :: 0 <= i < |s| ==> r[i] == LowerChar(s[i])
  {
    if s == [] then [] else [LowerChar(s[0])] + ToLowerCase(s[1..])
  }

  /** The column filter "JOSÉ" lowers to the cell text "josé". */
  lemma ToLowerCaseAccented()
    ensures ToLowerCase("JOS\U{C9}") == "jos\U{E9}"
  {
    assert "JOS\U{C9}"[1..] == "OS\U{C9}" && "OS\U{C9}"[1..] == "S\U{C9}" && "S\U{C9}"[1..] == "\U{C9}";
  }

  /** Lower-casing twice is lower-casing once. */
  lemma ToLowerCaseIdempotent(s: string)
    ensures ToLowerCase(ToLowerCase(s)) == ToLowerCase(s)
  {
    var t := ToLowerCase(s);
    assert forall i :: 0 <= i < |t| ==> LowerChar(t[i]) == t[i];
  }

  /** `s` holds `sub` at position `i`. */
  predicate OccursAt(s: string, sub: string, i: int) {
    0 <= i && i + |sub| <= |s| && s[i..i + |sub|] == sub
  }

  /** String.prototype.includes: `sub` occurs somewhere in `s`. */
  function Includes(s: string, sub: string): (r: bool)
    ensures r <==> exists i :: OccursAt(s, sub, i)
  {
    if |sub| > |s| then false
    else if s[..|sub|] == sub then
      assert OccursAt(s, sub, 0);
      true
    else
      OccursShift(s, sub);
      Includes(s[1..], sub)
  }

  /** Past a mismatch at position 0, `sub` occurs in `s` iff it occurs in its tail. */
  lemma OccursShift(s: string, sub: string)
    requires |sub| <= |s| && s[..|sub|] != sub
    ensures (exists i :: OccursAt(s, sub, i)) <==> exists i :: OccursAt(s[1..], sub, i)
  {
    if i :| OccursAt(s[1..], sub, i) {
      assert OccursAt(s, sub, i + 1);
    }
    if i :| OccursAt(s, sub, i) {
      assert OccursAt(s[1..], sub, i - 1);
    }
  }

  /** The empty string occurs in every string, and every string in itself. */
  lemma IncludesTrivialCases(s: string)
    ensures Includes(s, "") && Includes(s, s)
  {
    assert OccursAt(s, "", 0) && OccursAt(s, s, 0);
  }

  function Digit(d: nat): (c: char)
    requires d < 10
    ensures '0' <= c <= '9' && c as int - '0' as int == d
  {
    ('0' as int + d) as char
  }

  /** The decimal digits of `n`, most significant first, without leading zeros. */
  function DecimalDigits(n: nat): (r: string)
    ensures |r| > 0 && (forall i :: 0 <= i < |r| ==> '0' <= r[i] <= '9')
    ensures |r| > 1 ==> r[0] != '0'
  {
    if n < 10 then [Digit(n)] else DecimalDigits(n / 10) + [Digit(n % 10)]
  }

  /** The number a string of decimal digits denotes. */
  function DecimalValue(s: string): int {
    if s == [] then 0 else 10 * DecimalValue(s[..|s| - 1]) + (s[|s| - 1] as int - '0' as int)
  }

  /** String(n) for an integer: an optional minus sign, then its decimal digits. */
  function NumberToString(n: int): (r: string)
    ensures |r| > 0
    ensures r[0] == '-' <==> n < 0
    ensures n < 0 ==> r[1..] == DecimalDigits(-n)
    ensures n >= 0 ==> r == DecimalDigits(n)
  {
    if n < 0 then "-" + DecimalDigits(-n) else DecimalDigits(n)
  }

  /** Reading the digits back gives the number. */
  lemma {:induction false} DecimalRoundTrip(n: nat)
    ensures DecimalValue(DecimalDigits(n)) == n
  {
    if n >= 10 {
      DecimalRoundTrip(n / 10);
      var r := DecimalDigits(n / 10) + [Digit(n % 10)];
      assert r[..|r| - 1] == DecimalDigits(n / 10);
    }
  }

  /** Different integers print differently. */
  lemma NumberToStringInjective(m: int, n: int)
    requires NumberToString(m) == NumberToString(n)
    ensures m == n
  {
    if m < 0 {
      DecimalRoundTrip(-m);
      DecimalRoundTrip(-n);
    } else {
      DecimalRoundTrip(m);
      DecimalRoundTrip(n);
    }
  }
}
