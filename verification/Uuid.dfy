/** UUID columns: which texts PostgreSQL accepts for a UUID, and the one text it
    gives back. Thirty-two hex digits in either case; a hyphen may follow every
    fourth digit but the last; the whole may stand in braces. What comes back is in
    lower case, in groups of 8, 4, 4, 4 and 12 digits. */
module Uuid {
  import opened Text

  const DIGITS: nat := 32

  predicate IsHex(c: char) {
    '0' <= c <= '9' || 'a' <= c <= 'f' || 'A' <= c <= 'F'
  }

  predicate AllHex(s: string) {
    forall i :: 0 <= i < |s| ==> IsHex(s[i])
  }

  function Lower(c: char): char {
    if 'A' <= c <= 'F' then (c as int + 32) as char else c
  }

  /** After the n-th digit a hyphen may be skipped. */
  function Skip(s: string, n: nat): string {
    if 0 < n < DIGITS && n % 4 == 0 && s != "" && s[0] == '-' then s[1..] else s
  }

  /** The output has a hyphen after these digits. */
  predicate Breaks(n: nat) {
    n == 8 || n == 12 || n == 16 || n == 20
  }

  function Hyphenated(n: nat, rest: string): string {
    if Breaks(n) then "-" + rest else rest
  }

  /** The output for s, of whose digits n have been read before. */
  function Read(s: string, n: nat): Option<string>
    requires n <= DIGITS
    decreases DIGITS - n
  {
    if n == DIGITS then (if s == "" then Some("") else None)
    else if s == "" || !IsHex(s[0]) then None
    else
      var rest := Read(Skip(s[1..], n + 1), n + 1);
      if rest.None? then None else Some([Lower(s[0])] + Hyphenated(n + 1, rest.value))
  }

  function Unbraced(s: string): string {
    if 2 <= |s| && s[0] == '{' && s[|s| - 1] == '}' then s[1..|s| - 1] else s
  }

  /** What a UUID column holds when s is written to it, if s is accepted. */
  function Canon(s: string): Option<string> {
    Read(Unbraced(s), 0)
  }

  predicate Canonical(s: string) {
    Canon(s) == Some(s)
  }

  // ----- what comes out goes in unchanged -----

  lemma ReadStarts(s: string, n: nat)
    requires n <= DIGITS && Read(s, n).Some?
    ensures var t := Read(s, n).value; t == "" || IsHex(t[0])
  {
  }

  /** Reading one more digit in front. */
  lemma ReadOneMore(c: char, s: string, n: nat, rest: string)
    requires n < DIGITS && IsHex(c) && Read(Skip(s, n + 1), n + 1) == Some(rest)
    ensures Read([c] + s, n) == Some([Lower(c)] + Hyphenated(n + 1, rest))
  {
    assert ([c] + s)[1..] == s;
  }

  lemma SkipHyphen(tail: string, n: nat)
    requires 0 < n <= DIGITS && (tail != "" ==> IsHex(tail[0]))
    ensures Skip(Hyphenated(n, tail), n) == tail && Skip(tail, n) == tail
  {
    if Breaks(n) {
      assert ("-" + tail)[1..] == tail;
    }
  }

  lemma {:induction false} ReadTwice(s: string, n: nat)
    requires n <= DIGITS && Read(s, n).Some?
    ensures Read(Read(s, n).value, n) == Read(s, n)
    decreases DIGITS - n
  {
    if n < DIGITS {
      var next := Skip(s[1..], n + 1);
      var rest := Read(next, n + 1).value;
      ReadTwice(next, n + 1);
      ReadStarts(next, n + 1);
      SkipHyphen(rest, n + 1);
      ReadOneMore(Lower(s[0]), Hyphenated(n + 1, rest), n, rest);
    }
  }

  /** Canonical text is what comes out, and it goes in again unchanged. */
  lemma CanonIsCanonical(s: string)
    requires Canon(s).Some?
    ensures Canonical(Canon(s).value)
  {
    ReadTwice(Unbraced(s), 0);
    ReadStarts(Unbraced(s), 0);
  }

  predicate HexOrHyphen(c: char) {
    IsHex(c) || c == '-'
  }

  /** Text over the alphabet of section 4 of RFC 9562. */
  predicate UuidText(s: string) {
    forall i :: 0 <= i < |s| ==> HexOrHyphen(s[i])
  }

  /** How long the output is from the n-th digit on. */
  function Width(n: nat): int {
    DIGITS - n + (if n < 8 then 4 else if n < 12 then 3 else if n < 16 then 2 else if n < 20 then 1 else 0)
  }

  lemma {:induction false} ReadIsUuidText(s: string, n: nat)
    requires n <= DIGITS && Read(s, n).Some?
    ensures UuidText(Read(s, n).value) && |Read(s, n).value| == Width(n)
    decreases DIGITS - n
  {
    if n < DIGITS {
      ReadIsUuidText(Skip(s[1..], n + 1), n + 1);
    }
  }

  lemma UuidIsTrimmed(s: string)
    requires UuidText(s)
    ensures TrimSpace(s) == s
  {
    if s != "" {
      assert HexOrHyphen(s[0]) && HexOrHyphen(s[|s| - 1]);
    }
  }

  lemma CanonicalIsUuidText(s: string)
    requires Canonical(s)
    ensures |s| == 36 && UuidText(s) && TrimSpace(s) == s
  {
    ReadIsUuidText(Unbraced(s), 0);
    UuidIsTrimmed(s);
  }

  lemma {:induction false} HexIsRead(digits: string, n: nat)
    requires n + |digits| == DIGITS && AllHex(digits)
    ensures Read(digits, n).Some?
    decreases |digits|
  {
    if digits != "" {
      HexIsRead(digits[1..], n + 1);
      assert Skip(digits[1..], n + 1) == digits[1..];
    }
  }

  /** Any thirty-two hex digits, in whatever case, are accepted. */
  lemma HexIsAccepted(digits: string)
    requires |digits| == DIGITS && AllHex(digits)
    ensures Canon(digits).Some? && Canonical(Canon(digits).value)
  {
    assert IsHex(digits[0]);
    HexIsRead(digits, 0);
    CanonIsCanonical(digits);
  }

  // ----- other spellings of an id -----

  function WithoutHyphens(s: string): string {
    if s == "" then "" else (if s[0] == '-' then "" else [s[0]]) + WithoutHyphens(s[1..])
  }

  lemma BareStep(c: char, n: nat, rest: string)
    requires c != '-'
    ensures WithoutHyphens([c] + Hyphenated(n, rest)) == [c] + WithoutHyphens(rest)
  {
    var after := Hyphenated(n, rest);
    assert ([c] + after)[1..] == after;
    if Breaks(n) {
      assert ("-" + rest)[1..] == rest;
      assert WithoutHyphens(after) == "" + WithoutHyphens(rest);
    }
  }

  lemma {:induction false} ReadBare(s: string, n: nat)
    requires n <= DIGITS && Read(s, n).Some?
    ensures var bare := WithoutHyphens(Read(s, n).value);
            Read(bare, n) == Read(s, n) && (bare == "" || IsHex(bare[0]))
    decreases DIGITS - n
  {
    if n < DIGITS {
      var next := Skip(s[1..], n + 1);
      var rest := Read(next, n + 1).value;
      ReadBare(next, n + 1);
      BareOneMore(Lower(s[0]), n, rest);
    }
  }

  lemma BareOneMore(c: char, n: nat, rest: string)
    requires n < DIGITS && IsHex(c) && Lower(c) == c
    requires var bare := WithoutHyphens(rest); Read(bare, n + 1) == Some(rest) && (bare == "" || IsHex(bare[0]))
    ensures var t := [c] + Hyphenated(n + 1, rest);
            WithoutHyphens(t) == [c] + WithoutHyphens(rest) && Read(WithoutHyphens(t), n) == Some(t)
  {
    BareStep(c, n + 1, rest);
    SkipHyphen(WithoutHyphens(rest), n + 1);
    ReadOneMore(c, WithoutHyphens(rest), n, rest);
  }

  lemma BareTextOneMore(c: char, n: nat, rest: string)
    requires n < DIGITS && IsHex(c)
    requires |WithoutHyphens(rest)| == DIGITS - (n + 1) && UuidText(WithoutHyphens(rest))
    ensures var bare := WithoutHyphens([c] + Hyphenated(n + 1, rest)); |bare| == DIGITS - n && UuidText(bare)
  {
    BareStep(c, n + 1, rest);
  }

  lemma {:induction false} BareText(s: string, n: nat)
    requires n <= DIGITS && Read(s, n).Some?
    ensures var bare := WithoutHyphens(Read(s, n).value); |bare| == DIGITS - n && UuidText(bare)
    decreases DIGITS - n
  {
    if n < DIGITS {
      var next := Skip(s[1..], n + 1);
      var rest := Read(next, n + 1).value;
      BareText(next, n + 1);
      BareTextOneMore(Lower(s[0]), n, rest);
      assert Read(s, n) == Some([Lower(s[0])] + Hyphenated(n + 1, rest));
    }
  }

  /** Every id without its hyphens is accepted for it, and is not canonical. */
  lemma BareIsAccepted(id: string)
    requires Canonical(id)
    ensures var bare := WithoutHyphens(id);
            && Canon(bare) == Some(id) && bare != id && !Canonical(bare)
            && UuidText(bare) && TrimSpace(bare) == bare != ""
  {
    ReadBare(Unbraced(id), 0);
    BareText(Unbraced(id), 0);
    CanonicalIsUuidText(id);
    UuidIsTrimmed(WithoutHyphens(id));
  }

  // ----- an id is its digits -----

  function HexValue(c: char): nat
    requires IsHex(c)
  {
    if '0' <= c <= '9' then c as int - '0' as int
    else if 'a' <= c <= 'f' then 10 + (c as int - 'a' as int)
    else 10 + (c as int - 'A' as int)
  }

  /** The digits that a text has, by their values. */
  function DigitsOf(s: string): seq<nat> {
    if s == "" then [] else (if IsHex(s[0]) then [HexValue(s[0])] else []) + DigitsOf(s[1..])
  }

  predicate IsLowerHex(c: char) {
    '0' <= c <= '9' || 'a' <= c <= 'f'
  }

  /** Lowering changes no digit, and digits that look alike then are the same. */
  lemma LowerKeepsDigit(c: char, d: char)
    requires IsHex(c) && IsHex(d)
    ensures IsHex(Lower(c)) && HexValue(Lower(c)) == HexValue(c)
    ensures HexValue(c) == HexValue(d) ==> Lower(c) == Lower(d)
    ensures IsLowerHex(Lower(c))
  {
  }

  lemma DigitsOfOneMore(c: char, s: string)
    ensures DigitsOf([c] + s) == (if IsHex(c) then [HexValue(c)] else []) + DigitsOf(s)
  {
    assert ([c] + s)[1..] == s;
  }

  lemma SkipKeepsDigits(s: string, n: nat)
    ensures DigitsOf(Skip(s, n)) == DigitsOf(s)
  {
    if s != "" && s[0] == '-' {
      assert [] + DigitsOf(s[1..]) == DigitsOf(s[1..]);
    }
  }

  lemma HyphensKeepDigits(n: nat, rest: string)
    ensures DigitsOf(Hyphenated(n, rest)) == DigitsOf(rest)
  {
    DigitsOfOneMore('-', rest);
    assert [] + DigitsOf(rest) == DigitsOf(rest);
    assert ['-'] + rest == "-" + rest;
  }

  lemma DigitIsKept(c: char, n: nat, rest: string)
    requires IsHex(c)
    ensures DigitsOf([Lower(c)] + Hyphenated(n, rest)) == [HexValue(c)] + DigitsOf(rest)
  {
    HyphensKeepDigits(n, rest);
    LowerKeepsDigit(c, c);
    DigitsOfOneMore(Lower(c), Hyphenated(n, rest));
  }

  lemma FirstDigit(s: string, n: nat)
    requires s != "" && IsHex(s[0])
    ensures DigitsOf(s) == [HexValue(s[0])] + DigitsOf(Skip(s[1..], n))
  {
    SkipKeepsDigits(s[1..], n);
  }

  lemma {:induction false} ReadTakesDigits(s: string, n: nat)
    requires n <= DIGITS && Read(s, n).Some?
    ensures |DigitsOf(s)| == DIGITS - n
    decreases DIGITS - n
  {
    if n < DIGITS {
      FirstDigit(s, n + 1);
      ReadTakesDigits(Skip(s[1..], n + 1), n + 1);
    }
  }

  lemma NextKeepsDigits(s: string, n: nat, rest: string)
    requires s != "" && IsHex(s[0]) && DigitsOf(rest) == DigitsOf(Skip(s[1..], n))
    ensures DigitsOf([Lower(s[0])] + Hyphenated(n, rest)) == DigitsOf(s)
  {
    FirstDigit(s, n);
    DigitIsKept(s[0], n, rest);
  }

  lemma {:induction false} ReadKeepsDigits(s: string, n: nat)
    requires n <= DIGITS && Read(s, n).Some?
    ensures DigitsOf(Read(s, n).value) == DigitsOf(s)
    decreases DIGITS - n
  {
    if n < DIGITS {
      ReadKeepsDigits(Skip(s[1..], n + 1), n + 1);
      NextKeepsDigits(s, n + 1, Read(Skip(s[1..], n + 1), n + 1).value);
    }
  }

  /** An accepted text has thirty-two digits, and its id has the same ones. */
  lemma CanonKeepsDigits(s: string)
    requires Canon(s).Some?
    ensures DigitsOf(Canon(s).value) == DigitsOf(s) && |DigitsOf(s)| == 32
  {
    ReadKeepsDigits(Unbraced(s), 0);
    ReadTakesDigits(Unbraced(s), 0);
    UnbracedKeepsDigits(s);
  }

  lemma {:induction false} DigitsOfConcat(s: string, t: string)
    ensures DigitsOf(s + t) == DigitsOf(s) + DigitsOf(t)
  {
    if s == "" {
      assert s + t == t;
    } else {
      DigitsOfConcat(s[1..], t);
      assert s + t == [s[0]] + (s[1..] + t);
      DigitsOfOneMore(s[0], s[1..] + t);
      Associate(if IsHex(s[0]) then [HexValue(s[0])] else [], DigitsOf(s[1..]), DigitsOf(t));
    }
  }

  lemma UnbracedKeepsDigits(s: string)
    ensures DigitsOf(Unbraced(s)) == DigitsOf(s)
  {
    if Unbraced(s) != s {
      assert s == "{" + Unbraced(s) + "}";
      DigitsOfConcat("{" + Unbraced(s), "}");
      DigitsOfConcat("{", Unbraced(s));
      assert DigitsOf("{") == [] && DigitsOf("}") == [];
    }
  }

  lemma {:induction false} SameDigitsSameRead(s: string, t: string, n: nat)
    requires n <= DIGITS && Read(s, n).Some? && Read(t, n).Some? && DigitsOf(s) == DigitsOf(t)
    ensures Read(s, n) == Read(t, n)
    decreases DIGITS - n
  {
    if n < DIGITS {
      assert DigitsOf(s)[0] == DigitsOf(t)[0] && DigitsOf(s)[1..] == DigitsOf(t)[1..];
      assert DigitsOf(s)[1..] == DigitsOf(s[1..]) && DigitsOf(t)[1..] == DigitsOf(t[1..]);
      LowerKeepsDigit(s[0], t[0]);
      SkipKeepsDigits(s[1..], n + 1);
      SkipKeepsDigits(t[1..], n + 1);
      SameDigitsSameRead(Skip(s[1..], n + 1), Skip(t[1..], n + 1), n + 1);
    }
  }

  /** Two accepted texts name the same id exactly if they have the same digits, in whatever
      case and however grouped. */
  lemma SameIdIff(s: string, t: string)
    requires Canon(s).Some? && Canon(t).Some?
    ensures Canon(s) == Canon(t) <==> DigitsOf(s) == DigitsOf(t)
  {
    CanonKeepsDigits(s);
    CanonKeepsDigits(t);
    UnbracedKeepsDigits(s);
    UnbracedKeepsDigits(t);
    if DigitsOf(s) == DigitsOf(t) {
      SameDigitsSameRead(Unbraced(s), Unbraced(t), 0);
    }
  }

  /** Braces around an id change nothing. */
  lemma BracesAreIgnored(id: string)
    requires UuidText(id)
    ensures Canon("{" + id + "}") == Canon(id)
  {
    var braced := "{" + id + "}";
    assert braced[1..|braced| - 1] == id;
    assert id != "" ==> HexOrHyphen(id[0]);
    assert Unbraced(id) == id;
  }

  function Dashed(n: nat, rest: string): string {
    if n % 4 == 0 && n < 32 then "-" + rest else rest
  }

  /** Hex digits with a hyphen after every fourth but the last, n having gone before. */
  function InFours(digits: string, n: nat): string {
    if digits == "" then "" else [digits[0]] + Dashed(n + 1, InFours(digits[1..], n + 1))
  }

  lemma DashIsSkipped(n: nat, rest: string)
    requires 0 < n && (rest == "" || rest[0] != '-')
    ensures Skip(Dashed(n, rest), n) == rest
  {
    if n % 4 == 0 && n < 32 {
      assert ("-" + rest)[1..] == rest;
    }
  }

  lemma FoursStep(digits: string, n: nat)
    requires digits != "" && AllHex(digits)
    ensures var s := InFours(digits, n);
            s != "" && s[0] == digits[0] && Skip(s[1..], n + 1) == InFours(digits[1..], n + 1)
  {
    var rest := InFours(digits[1..], n + 1);
    var after := Dashed(n + 1, rest);
    assert ([digits[0]] + after)[1..] == after;
    if |digits| > 1 {
      assert rest[0] == digits[1] && IsHex(digits[1]);
    }
    DashIsSkipped(n + 1, rest);
  }

  lemma {:induction false} FoursAreRead(digits: string, n: nat)
    requires n + |digits| == DIGITS && AllHex(digits)
    ensures Read(InFours(digits, n), n).Some?
    decreases |digits|
  {
    if digits != "" {
      FoursStep(digits, n);
      FoursAreRead(digits[1..], n + 1);
    }
  }

  /** Any thirty-two hex digits are accepted in groups of four. */
  lemma FoursAreAccepted(digits: string)
    requires |digits| == 32 && AllHex(digits)
    ensures Canon(InFours(digits, 0)).Some?
  {
    FoursAreRead(digits, 0);
    FoursStep(digits, 0);
  }

  // ----- what an id looks like -----

  /** Where the output is when n digits have been read. */
  function Place(n: nat): nat {
    n + (if n < 8 then 0 else if n < 12 then 1 else if n < 16 then 2 else if n < 20 then 3 else 4)
  }

  /** At place i of an id stands a hyphen, or a digit in lower case. */
  predicate RightAt(c: char, i: nat) {
    if i == 8 || i == 13 || i == 18 || i == 23 then c == '-' else IsLowerHex(c)
  }

  predicate RightFrom(t: string, start: nat) {
    forall i :: 0 <= i < |t| ==> RightAt(t[i], start + i)
  }

  lemma RightCons(c: char, t: string, start: nat)
    requires RightAt(c, start) && RightFrom(t, start + 1)
    ensures RightFrom([c] + t, start)
  {
    var u := [c] + t;
    forall i | 0 <= i < |u| ensures RightAt(u[i], start + i) {
      if i > 0 {
        assert u[i] == t[i - 1] && RightAt(t[i - 1], start + 1 + (i - 1));
      }
    }
  }

  lemma HyphenLooksRight(n: nat, rest: string)
    requires n < DIGITS && RightFrom(rest, Place(n + 1))
    ensures RightFrom(Hyphenated(n + 1, rest), Place(n) + 1)
  {
    if Breaks(n + 1) {
      RightCons('-', rest, Place(n) + 1);
      assert ['-'] + rest == "-" + rest;
    }
  }

  lemma NextLooksRight(s: string, n: nat, rest: string)
    requires n < DIGITS && s != "" && IsHex(s[0]) && RightFrom(rest, Place(n + 1))
    ensures RightFrom([Lower(s[0])] + Hyphenated(n + 1, rest), Place(n))
  {
    HyphenLooksRight(n, rest);
    LowerKeepsDigit(s[0], s[0]);
    RightCons(Lower(s[0]), Hyphenated(n + 1, rest), Place(n));
  }

  lemma {:induction false} ReadLooksRight(s: string, n: nat)
    requires n <= DIGITS && Read(s, n).Some?
    ensures RightFrom(Read(s, n).value, Place(n))
    decreases DIGITS - n
  {
    if n < DIGITS {
      ReadLooksRight(Skip(s[1..], n + 1), n + 1);
      NextLooksRight(s, n, Read(Skip(s[1..], n + 1), n + 1).value);
    }
  }

  /** What a UUID column gives back has its hyphens after 8, 12, 16 and 20 digits, and its
      digits in lower case. */
  lemma CanonLooksRight(s: string)
    requires Canon(s).Some?
    ensures RightFrom(Canon(s).value, 0)
  {
    ReadLooksRight(Unbraced(s), 0);
  }
}
