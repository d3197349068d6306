/** Small shared vocabulary: optional values, positive row ids and the
    decimal rendering of ids used in generated references ("INV-7"). */
module Common {

  /** A nullable column or an absent request field. */
  datatype Option<T> = None | Some(value: T) {
    function GetOr(default: T): T {
      match this
      case Some(v) => v
      case None => default
    }
  }

  /** Auto-increment primary keys start at 1, so a present id is always
      truthy in the source's `if (!$user->company_id)` style tests. */
  type CompanyId = n: nat | n > 0 witness 1

  /** `required|string|max:n` on the value the controller reads.  The
      global middleware has already trimmed it, and a blank input arrived
      as null, which `required` refuses like the empty string. */
  predicate RequiredMax(s: string, max: nat) {
    1 <= |s| <= max
  }

  // ---------------------------------------------------------------------
  // The global request middleware

  /** The characters the global `TrimStrings` middleware strips from both
      ends of every request string (`Str::trim`, a Unicode-aware `\s`
      plus a few extras): NUL, tab, line feed, vertical tab, form feed,
      carriage return, space, U+0085, the no-break space U+00A0, U+1680,
      the spaces U+2000..U+200A, the zero-width space U+200B, the
      left-to-right mark U+200E, the separators U+2028 and U+2029,
      U+202F, U+205F, the ideographic space U+3000 and the byte-order
      mark U+FEFF. */
  predicate IsBlank(c: char) {
    var n := c as int;
    n == 0 || 9 <= n <= 13 || n == 32 || n == 0x85 || n == 0xA0 || n == 0x1680
    || 0x2000 <= n <= 0x200B || n == 0x200E || n == 0x2028 || n == 0x2029
    || n == 0x202F || n == 0x205F || n == 0x3000 || n == 0xFEFF
  }

  /** How many blanks the input starts with. */
  function LeadingBlanks(s: string): (n: nat)
    ensures n <= |s|
  {
    if s == [] || !IsBlank(s[0]) then 0 else 1 + LeadingBlanks(s[1..])
  }

  /** How many blanks the input ends with. */
  function TrailingBlanks(s: string): (n: nat)
    ensures n <= |s|
  {
    if s == [] || !IsBlank(s[|s| - 1]) then 0 else 1 + TrailingBlanks(s[..|s| - 1])
  }

  /** `TrimStrings`: the input without its leading and trailing blanks. */
  function Trim(s: string): string {
    var u := s[LeadingBlanks(s)..];
    u[..|u| - TrailingBlanks(u)]
  }

  lemma {:induction false} LeadingBlanksAreBlank(s: string)
    ensures forall i :: 0 <= i < LeadingBlanks(s) ==> IsBlank(s[i])
    ensures LeadingBlanks(s) < |s| ==> !IsBlank(s[LeadingBlanks(s)])
  {
    if s != [] && IsBlank(s[0]) {
      LeadingBlanksAreBlank(s[1..]);
    }
  }

  lemma {:induction false} TrailingBlanksAreBlank(s: string)
    ensures forall i :: |s| - TrailingBlanks(s) <= i < |s| ==> IsBlank(s[i])
    ensures TrailingBlanks(s) < |s| ==> !IsBlank(s[|s| - TrailingBlanks(s) - 1])
  {
    if s != [] && IsBlank(s[|s| - 1]) {
      TrailingBlanksAreBlank(s[..|s| - 1]);
    }
  }

  /** The trimmed input is the slice of the input after its leading
      blanks, everything after it is blank, and it neither starts nor ends
      with a blank. */
  lemma TrimIsSlice(s: string)
    ensures var t := Trim(s);
            && LeadingBlanks(s) + |t| <= |s| && t == s[LeadingBlanks(s)..LeadingBlanks(s) + |t|]
            && (forall i :: LeadingBlanks(s) + |t| <= i < |s| ==> IsBlank(s[i]))
            && (t == [] || (!IsBlank(t[0]) && !IsBlank(t[|t| - 1])))
  {
    var l := LeadingBlanks(s);
    var u := s[l..];
    var m := TrailingBlanks(u);
    LeadingBlanksAreBlank(s);
    TrailingBlanksAreBlank(u);
    var t := u[..|u| - m];
    assert Trim(s) == t;
    assert t == s[l..l + |t|];
    forall i | l + |t| <= i < |s|
      ensures IsBlank(s[i])
    {
      assert s[i] == u[i - l];
    }
    if t != [] {
      assert t[0] == u[0] && t[|t| - 1] == u[|u| - m - 1];
    }
  }

  /** A string without blanks at its ends reaches the controller as sent. */
  lemma TrimKeepsClean(s: string)
    requires s == [] || (!IsBlank(s[0]) && !IsBlank(s[|s| - 1]))
    ensures Trim(s) == s
  {
    assert LeadingBlanks(s) == 0;
    if s != [] {
      assert TrailingBlanks(s) == 0;
    }
  }

  /** Trimming twice is trimming once. */
  lemma TrimIdempotent(s: string)
    ensures Trim(Trim(s)) == Trim(s)
  {
    TrimIsSlice(s);
    TrimKeepsClean(Trim(s));
  }

  /** A blank input reaches the controller as the empty string (null, once
      `ConvertEmptyStringsToNull` has run). */
  lemma BlankTrimsToEmpty(s: string)
    requires forall i :: 0 <= i < |s| ==> IsBlank(s[i])
    ensures Trim(s) == []
  {
    TrimIsSlice(s);
  }

  /** Every string of a request array, trimmed. */
  function TrimAll(ss: seq<string>): (r: seq<string>)
    ensures |r| == |ss|
    ensures forall i :: 0 <= i < |ss| ==> r[i] == Trim(ss[i])
  {
    if ss == [] then [] else [Trim(ss[0])] + TrimAll(ss[1..])
  }

  /** `TrimStrings` then `ConvertEmptyStringsToNull` on an optional field:
      a blank value arrives as null. */
  function TrimNullable(s: Option<string>): (r: Option<string>)
    ensures r.None? <==> s.None? || Trim(s.value) == []
    ensures r.Some? ==> r.value == Trim(s.value)
  {
    if s.None? || Trim(s.value) == [] then None else Some(Trim(s.value))
  }

  predicate IsDigit(c: char) {
    '0' <= c <= '9'
  }

  function DigitChar(d: nat): (c: char)
    requires d < 10
    ensures IsDigit(c) && c as int - '0' as int == d
  {
    ('0' as int + d) as char
  }

  /** PHP string interpolation of a non-negative integer. */
  function NatToString(n: nat): (s: string)
    ensures |s| >= 1
    ensures forall i :: 0 <= i < |s| ==> IsDigit(s[i])
    ensures n < 10 <==> |s| == 1
    decreases n
  {
    if n < 10 then [DigitChar(n)] else NatToString(n / 10) + [DigitChar(n % 10)]
  }

  /** Reads a string of decimal digits back as a number. */
  function DigitsValue(s: string): nat
    requires forall i :: 0 <= i < |s| ==> IsDigit(s[i])
  {
    if s == [] then 0
    else
      assert IsDigit(s[|s| - 1]);
      DigitsValue(s[..|s| - 1]) * 10 + (s[|s| - 1] as int - '0' as int)
  }

  /** Rendering an id and reading it back gives the id again. */
  lemma {:induction false} DigitsRoundTrip(n: nat)
    ensures DigitsValue(NatToString(n)) == n
    decreases n
  {
    var s := NatToString(n);
    if n >= 10 {
      DigitsRoundTrip(n / 10);
      assert s[..|s| - 1] == NatToString(n / 10);
    }
  }

  /** Distinct ids give distinct renderings, so generated references such as
      "INV-" + id name exactly one document. */
  lemma NatToStringInjective(m: nat, n: nat)
    requires NatToString(m) == NatToString(n)
    ensures m == n
  {
    DigitsRoundTrip(m);
    DigitsRoundTrip(n);
  }

  lemma PrefixedInjective(prefix: string, m: nat, n: nat)
    requires prefix + NatToString(m) == prefix + NatToString(n)
    ensures m == n
  {
    var a, b := prefix + NatToString(m), prefix + NatToString(n);
    assert NatToString(m) == a[|prefix|..];
    assert NatToString(n) == b[|prefix|..];
    NatToStringInjective(m, n);
  }
}
