/** The string handling of the annotation text format: Python's
    `str.split(sep)`, `int(text)` on decimal integers and `str(n)` for an
    integer, with the facts that make rows written from integers read back. */
module Text {
  import opened Py

  const CommaSpace: string := ", "

  /** `s.split(sep)`: cut at every occurrence of `sep`, scanning from the
      left without overlaps; the empty string gives `[""]`. */
  function Split(s: string, sep: string): (r: seq<string>)
    requires |sep| > 0
    ensures |r| >= 1
    decreases |s|
  {
    if |s| < |sep| then [s]
    else if s[..|sep|] == sep then [""] + Split(s[|sep|..], sep)
    else
      var rest := Split(s[1..], sep);
      [[s[0]] + rest[0]] + rest[1..]
  }

  /** `sep.join(fields)`. */
  function Join(fields: seq<string>, sep: string): string
  {
    if |fields| == 0 then ""
    else if |fields| == 1 then fields[0]
    else fields[0] + sep + Join(fields[1..], sep)
  }

  /** `", " not in f`. */
  predicate NoCommaSpace(f: string)
  {
    forall i :: 0 <= i < |f| - 1 ==> !(f[i] == ',' && f[i + 1] == ' ')
  }

  /** `sep` occurs in `s` at position `p`. */
  predicate OccursAt(s: string, sep: string, p: nat)
  {
    p + |sep| <= |s| && s[p..p + |sep|] == sep
  }

  /** A field that can stand before a separator: no occurrence of `sep`
      starts inside it, not even one that runs into the separator after it.
      For a field written on its own this is `sep not in f`. */
  predicate SafeField(f: string, sep: string)
  {
    forall p: nat :: p < |f| ==> !OccursAt(f + sep, sep, p)
  }

  /** Splitting gives `[""]` exactly for the empty string; this is why the
      loader's `== [""]` test recognises an empty file. */
  lemma SplitIsEmptyLine(s: string, sep: string)
    requires |sep| > 0
    ensures Split(s, sep) == [""] <==> s == ""
  {
    if s != "" && |s| >= |sep| && s[..|sep|] != sep {
      var rest := Split(s[1..], sep);
      assert Split(s, sep)[0] == [s[0]] + rest[0];
    }
  }

  lemma SafeFieldTail(f: string, sep: string)
    requires |f| > 0 && SafeField(f, sep)
    ensures SafeField(f[1..], sep)
  {
    forall p: nat | p < |f[1..]| ensures !OccursAt(f[1..] + sep, sep, p) {
      assert !OccursAt(f + sep, sep, p + 1);
      assert (f[1..] + sep)[p..p + |sep|] == (f + sep)[p + 1..p + 1 + |sep|];
    }
  }

  lemma {:induction false} SplitSingleField(f: string, sep: string)
    requires |sep| > 0 && SafeField(f, sep)
    ensures Split(f, sep) == [f]
    decreases |f|
  {
    if |f| >= |sep| {
      assert !OccursAt(f + sep, sep, 0);
      assert (f + sep)[..|sep|] == f[..|sep|];
      SafeFieldTail(f, sep);
      SplitSingleField(f[1..], sep);
      assert [f[0]] + f[1..] == f;
    }
  }

  lemma {:induction false} SplitLeadingField(f: string, t: string, sep: string)
    requires |sep| > 0 && SafeField(f, sep)
    ensures Split(f + sep + t, sep) == [f] + Split(t, sep)
    decreases |f|
  {
    var s := f + sep + t;
    if |f| == 0 {
      assert s[..|sep|] == sep;
      assert s[|sep|..] == t;
    } else {
      assert !OccursAt(f + sep, sep, 0);
      assert s[..|sep|] == (f + sep)[..|sep|];
      assert s[1..] == f[1..] + sep + t;
      SafeFieldTail(f, sep);
      SplitLeadingField(f[1..], t, sep);
      assert [f[0]] + f[1..] == f;
    }
  }

  /** Joining fields and splitting again at the same separator gives the
      fields back, provided no field holds the separator. */
  lemma {:induction false} SplitJoin(fields: seq<string>, sep: string)
    requires |sep| > 0 && |fields| >= 1
    requires forall i :: 0 <= i < |fields| ==> SafeField(fields[i], sep)
    ensures Split(Join(fields, sep), sep) == fields
  {
    if |fields| == 1 {
      SplitSingleField(fields[0], sep);
    } else {
      SplitJoin(fields[1..], sep);
      SplitLeadingField(fields[0], Join(fields[1..], sep), sep);
    }
  }

  lemma OccursAtChars(g: string, p: nat)
    ensures OccursAt(g, CommaSpace, p) ==> g[p] == ',' && g[p + 1] == ' '
  {
    if OccursAt(g, CommaSpace, p) {
      assert g[p..p + 2][0] == g[p] && g[p..p + 2][1] == g[p + 1];
    }
  }

  /** For ", ", the field condition is just that ", " does not occur. */
  lemma CommaSpaceSafe(f: string)
    requires NoCommaSpace(f)
    ensures SafeField(f, CommaSpace)
  {
    forall p: nat | p < |f| ensures !OccursAt(f + CommaSpace, CommaSpace, p) {
      var g := f + CommaSpace;
      OccursAtChars(g, p);
      assert g[p] == f[p];
      if p + 1 < |f| {
        assert g[p + 1] == f[p + 1];
      }
    }
  }

  /** For a one-character separator, the condition is that it does not occur. */
  lemma CharSafe(f: string, c: char)
    requires c !in f
    ensures SafeField(f, [c])
  {
    forall p: nat | p < |f| ensures !OccursAt(f + [c], [c], p) {
      assert (f + [c])[p] == f[p];
    }
  }

  // ---- integers ----

  predicate IsDigit(c: char) { '0' <= c <= '9' }

  predicate IsSpace(c: char)
  {
    c == ' ' || c == '\t' || c == '\n' || c == '\r' || c == 11 as char || c == 12 as char
  }

  function DigitValue(c: char): nat
    requires IsDigit(c)
  {
    (c as int - '0' as int) as nat
  }

  function DigitChar(d: nat): (c: char)
    requires d < 10
    ensures IsDigit(c) && DigitValue(c) == d
  {
    ('0' as int + d) as char
  }

  predicate AllDigits(s: string)
  {
    forall i :: 0 <= i < |s| ==> IsDigit(s[i])
  }

  /** The value of a string of decimal digits, most significant first. */
  function DigitsValue(s: string): nat
    requires AllDigits(s)
  {
    if |s| == 0 then 0 else DigitsValue(s[..|s| - 1]) * 10 + DigitValue(s[|s| - 1])
  }

  function StripLeft(s: string): string
  {
    if |s| > 0 && IsSpace(s[0]) then StripLeft(s[1..]) else s
  }

  function StripRight(s: string): string
  {
    if |s| > 0 && IsSpace(s[|s| - 1]) then StripRight(s[..|s| - 1]) else s
  }

  /** `int(s)` on ASCII text: surrounding whitespace, an optional sign,
      then at least one decimal digit; anything else is `None`, Python's
      ValueError. The underscores between digits and the non-ASCII digits
      and spaces that Python also accepts are not modelled. */
  function ParseInt(s: string): Option<int>
  {
    var t := StripRight(StripLeft(s));
    var neg := |t| > 0 && t[0] == '-';
    var body := if |t| > 0 && (t[0] == '-' || t[0] == '+') then t[1..] else t;
    if |body| == 0 || !AllDigits(body) then None
    else
      var v: int := DigitsValue(body);
      Some(if neg then -v else v)
  }

  /** `str(n)` for a non-negative integer. */
  function NatToString(n: nat): (s: string)
    ensures |s| >= 1 && AllDigits(s)
  {
    if n < 10 then [DigitChar(n)] else NatToString(n / 10) + [DigitChar(n % 10)]
  }

  /** `str(i)` for an integer. */
  function IntToString(i: int): string
  {
    if i < 0 then "-" + NatToString(-i) else NatToString(i)
  }

  lemma {:induction false} NatToStringValue(n: nat)
    ensures DigitsValue(NatToString(n)) == n
  {
    if n >= 10 {
      var s := NatToString(n);
      assert s[..|s| - 1] == NatToString(n / 10);
      NatToStringValue(n / 10);
    }
  }

  /** `str(i)` is a minus sign and digits. */
  lemma IntToStringChars(i: int)
    ensures forall k :: 0 <= k < |IntToString(i)| ==> IsDigit(IntToString(i)[k]) || IntToString(i)[k] == '-'
  {
    var s := IntToString(i);
    forall k | 0 <= k < |s| ensures IsDigit(s[k]) || s[k] == '-' {
      if i < 0 && k > 0 {
        assert s[k] == NatToString(-i)[k - 1];
      }
    }
  }

  lemma IntToStringNoCommaSpace(i: int)
    ensures NoCommaSpace(IntToString(i)) && '\n' !in IntToString(i)
  {
    IntToStringChars(i);
  }

  /** A character in neither the fields nor the separator is not in the join. */
  lemma {:induction false} JoinAvoids(fields: seq<string>, sep: string, c: char)
    requires c !in sep
    requires forall i :: 0 <= i < |fields| ==> c !in fields[i]
    ensures c !in Join(fields, sep)
  {
    if |fields| > 1 {
      JoinAvoids(fields[1..], sep, c);
    }
  }

  /** `int(str(i)) == i`. */
  lemma IntRoundTrip(i: int)
    ensures ParseInt(IntToString(i)) == Some(i)
  {
    var s := IntToString(i);
    if i < 0 {
      NatToStringValue(-i);
      assert s[1..] == NatToString(-i);
    } else {
      NatToStringValue(i);
    }
    assert StripLeft(s) == s;
    assert StripRight(s) == s;
  }
}
