/**
 * Reading a number from an entry field (main.py, parse_number): the text is
 * stripped of surrounding white space, every comma becomes a dot, and the
 * result is handed to Python's float(). float() itself is not modelled: it
 * is a parameter, a partial conversion from text to a number.
 */
module NumberInput {
  import opened Wrappers

  /** The characters Python's str.isspace() accepts, which str.strip() removes. */
  predicate IsSpace(c: char) {
    ('\U{9}' <= c <= '\U{D}') || ('\U{1C}' <= c <= '\U{20}') ||
    c == '\U{85}' || c == '\U{A0}' || c == '\U{1680}' ||
    ('\U{2000}' <= c <= '\U{200A}') ||
    c == '\U{2028}' || c == '\U{2029}' || c == '\U{202F}' || c == '\U{205F}' || c == '\U{3000}'
  }

  /** How many white-space characters `s` starts with. */
  function LeadingSpaces(s: string): (n: nat)
    ensures n <= |s|
    ensures forall k :: 0 <= k < n ==> IsSpace(s[k])
    ensures n < |s| ==> !IsSpace(s[n])
  {
    if |s| > 0 && IsSpace(s[0]) then 1 + LeadingSpaces(s[1..]) else 0
  }

  /** How many white-space characters `s` ends with. */
  function TrailingSpaces(s: string): (n: nat)
    ensures n <= |s|
    ensures forall k :: |s| - n <= k < |s| ==> IsSpace(s[k])
    ensures n < |s| ==> !IsSpace(s[|s| - n - 1])
  {
    if |s| > 0 && IsSpace(s[|s| - 1]) then 1 + TrailingSpaces(s[..|s| - 1]) else 0
  }

  /** str.strip(): the leading and then the trailing white space removed. */
  function Strip(s: string): string {
    var rest := s[LeadingSpaces(s)..];
    rest[..|rest| - TrailingSpaces(rest)]
  }

  /** The stripped text is empty or starts and ends with a non-space. */
  lemma StripEnds(s: string)
    ensures Strip(s) == [] || (!IsSpace(Strip(s)[0]) && !IsSpace(Strip(s)[|Strip(s)| - 1]))
  {
    var rest := s[LeadingSpaces(s)..];
    var r := Strip(s);
    if r != [] {
      assert r[0] == rest[0] == s[LeadingSpaces(s)];
    }
  }

  /** A text that neither starts nor ends with white space is its own strip. */
  lemma StripUnpadded(s: string)
    requires s == [] || (!IsSpace(s[0]) && !IsSpace(s[|s| - 1]))
    ensures Strip(s) == s
  {
    assert LeadingSpaces(s) == 0;
    assert s[0..] == s;
    assert TrailingSpaces(s) == 0;
  }

  /** Stripping twice is stripping once. */
  lemma StripIdempotent(s: string)
    ensures Strip(Strip(s)) == Strip(s)
  {
    StripEnds(s);
    StripUnpadded(Strip(s));
  }

  /** str.replace(',', '.'): the decimal comma becomes a decimal point. */
  function ReplaceCommas(s: string): (r: string)
    ensures |r| == |s|
    ensures ',' !in r
    ensures forall k :: 0 <= k < |s| ==> r[k] == (if s[k] == ',' then '.' else s[k])
  {
    if s == [] then [] else [if s[0] == ',' then '.' else s[0]] + ReplaceCommas(s[1..])
  }

  /** Replacing commas leaves a text without commas unchanged, so replacing twice is replacing once. */
  lemma {:induction false} ReplaceCommasIdempotent(s: string)
    ensures ReplaceCommas(ReplaceCommas(s)) == ReplaceCommas(s)
  {
    if s != [] {
      ReplaceCommasIdempotent(s[1..]);
    }
  }

  /** Two texts that differ only in the choice of decimal separator normalise to the same text. */
  lemma SeparatorsAgree(s: string, t: string)
    requires |s| == |t|
    requires forall k :: 0 <= k < |s| ==> s[k] == t[k] || (s[k] in ",." && t[k] in ",.")
    ensures ReplaceCommas(s) == ReplaceCommas(t)
  {
  }

  /** The number an entry holds: strip, replace commas, convert; None when the conversion fails. */
  function ParseNumber(text: string, toFloat: string -> Option<real>): Option<real> {
    toFloat(ReplaceCommas(Strip(text)))
  }

  /** Blanks around an entry are dropped: a space before and a tab after. */
  lemma StripPadded()
    ensures Strip(" 1,5\t") == "1,5"
  {
    var padded := " 1,5\t";
    assert LeadingSpaces(padded) == 1 by {
      assert IsSpace(padded[0]) && !IsSpace(padded[1]);
      assert LeadingSpaces(padded[1..]) == 0;
    }
    var rest := padded[1..];
    assert rest == "1,5\t";
    assert TrailingSpaces(rest) == 1 by {
      assert IsSpace(rest[3]) && !IsSpace(rest[2]);
      assert TrailingSpaces(rest[..3]) == 0;
    }
  }

  /** "1,5" and "1.5" (with or without surrounding blanks) read as the same number, whatever float() does. */
  lemma DecimalCommaAccepted(toFloat: string -> Option<real>)
    ensures ParseNumber("1,5", toFloat) == ParseNumber("1.5", toFloat)
    ensures ParseNumber(" 1,5\t", toFloat) == ParseNumber("1.5", toFloat)
  {
    StripUnpadded("1,5");
    StripUnpadded("1.5");
    StripPadded();
    SeparatorsAgree("1,5", "1.5");
  }
}
