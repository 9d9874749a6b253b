/** String helpers shared by the services: Go's strings.TrimSpace, Split and Join,
    and the Result type that stands for Go's (value, error) returns. */
module Text {

  datatype Result<+T, +E> = Ok(value: T) | Err(error: E)

  datatype Option<+T> = None | Some(value: T)

  /** unicode.IsSpace. */
  predicate IsSpace(c: char) {
    || '\t' <= c <= '\r'
    || c == ' '
    || c == '\U{85}' || c == '\U{A0}' || c == '\U{1680}'
    || '\U{2000}' <= c <= '\U{200A}'
    || c == '\U{2028}' || c == '\U{2029}' || c == '\U{202F}' || c == '\U{205F}' || c == '\U{3000}'
  }

  function TrimSpace(s: string): (r: string)
    ensures r != "" ==> !IsSpace(r[0]) && !IsSpace(r[|r| - 1])
    decreases |s|
  {
    if s == "" then ""
    else if IsSpace(s[0]) then TrimSpace(s[1..])
    else if IsSpace(s[|s| - 1]) then TrimSpace(s[..|s| - 1])
    else s
  }

  predicate AllSpace(s: string) {
    forall i :: 0 <= i < |s| ==> IsSpace(s[i])
  }

  /** s is r with nothing but space around it. */
  ghost predicate Pads(s: string, r: string) {
    exists front, back :: AllSpace(front) && AllSpace(back) && s == front + r + back
  }

  lemma PadsAhead(s: string, r: string)
    requires s != "" && IsSpace(s[0]) && Pads(s[1..], r)
    ensures Pads(s, r)
  {
    var front, back :| AllSpace(front) && AllSpace(back) && s[1..] == front + r + back;
    assert AllSpace([s[0]] + front) && s == ([s[0]] + front) + r + back;
  }

  lemma PadsBehind(s: string, r: string)
    requires s != "" && IsSpace(s[|s| - 1]) && Pads(s[..|s| - 1], r)
    ensures Pads(s, r)
  {
    var front, back :| AllSpace(front) && AllSpace(back) && s[..|s| - 1] == front + r + back;
    assert AllSpace(back + [s[|s| - 1]]) && s == front + r + (back + [s[|s| - 1]]);
  }

  lemma PadsItself(s: string)
    ensures Pads(s, s)
  {
    assert AllSpace("") && s == "" + s + "";
  }

  /** Only space is cut off, and only at the two ends; with TrimSpace's own promise that
      none is left there, this says what it returns. */
  lemma {:induction false} TrimCutsSpace(s: string)
    ensures Pads(s, TrimSpace(s))
    decreases |s|
  {
    if s == "" {
      PadsItself(s);
    } else if IsSpace(s[0]) {
      TrimCutsSpace(s[1..]);
      PadsAhead(s, TrimSpace(s[1..]));
    } else if IsSpace(s[|s| - 1]) {
      TrimCutsSpace(s[..|s| - 1]);
      PadsBehind(s, TrimSpace(s[..|s| - 1]));
    } else {
      PadsItself(s);
    }
  }

  lemma {:induction false} TrimSpaceIdempotent(s: string)
    ensures TrimSpace(TrimSpace(s)) == TrimSpace(s)
  {
    var r := TrimSpace(s);
    if r != "" {
      assert !IsSpace(r[0]) && !IsSpace(r[|r| - 1]);
    }
  }

  lemma {:induction false} TrimKeepsHead(s: string)
    requires s != "" && !IsSpace(s[0])
    ensures TrimSpace(s) != ""
    decreases |s|
  {
    if IsSpace(s[|s| - 1]) {
      TrimKeepsHead(s[..|s| - 1]);
    }
  }

  lemma Associate<T>(a: seq<T>, b: seq<T>, c: seq<T>)
    ensures (a + b) + c == a + (b + c)
  {
  }

  // ----- strings.Split and strings.Join on a one-character separator -----

  predicate Free(s: string, sep: char) {
    sep !in s
  }

  predicate AllFree(parts: seq<string>, sep: char) {
    forall i :: 0 <= i < |parts| ==> Free(parts[i], sep)
  }

  /** The pieces between separators; always at least one. */
  function Split(s: string, sep: char): (parts: seq<string>)
    ensures |parts| == 1 + Occurrences(s, sep)
    ensures AllFree(parts, sep)
  {
    if s == "" then [""]
    else
      var rest := Split(s[1..], sep);
      if s[0] == sep then [""] + rest else [[s[0]] + rest[0]] + rest[1..]
  }

  function Occurrences(s: string, sep: char): nat {
    if s == "" then 0 else (if s[0] == sep then 1 else 0) + Occurrences(s[1..], sep)
  }

  function Join(parts: seq<string>, sep: char): string
    requires parts != []
  {
    if |parts| == 1 then parts[0] else parts[0] + [sep] + Join(parts[1..], sep)
  }

  lemma {:induction false} OccurrencesConcat(s: string, t: string, sep: char)
    ensures Occurrences(s + t, sep) == Occurrences(s, sep) + Occurrences(t, sep)
  {
    if s == "" {
      assert s + t == t;
    } else {
      assert (s + t)[1..] == s[1..] + t;
      OccurrencesConcat(s[1..], t, sep);
    }
  }

  lemma {:induction false} FreeMeansNone(s: string, sep: char)
    ensures Free(s, sep) <==> Occurrences(s, sep) == 0
  {
    if s != "" {
      assert s == [s[0]] + s[1..];
      FreeMeansNone(s[1..], sep);
    }
  }

  lemma {:induction false} SplitHead(s: string, t: string, sep: char)
    requires Free(s, sep)
    ensures Split(s + [sep] + t, sep) == [s] + Split(t, sep)
  {
    if s == "" {
      assert s + [sep] + t == [sep] + t && ([sep] + t)[1..] == t;
    } else {
      assert (s + [sep] + t)[1..] == s[1..] + [sep] + t;
      SplitHead(s[1..], t, sep);
      assert [s[0]] + s[1..] == s;
    }
  }

  lemma {:induction false} SplitFree(s: string, sep: char)
    requires Free(s, sep)
    ensures Split(s, sep) == [s]
  {
    if s != "" {
      SplitFree(s[1..], sep);
      assert [s[0]] + s[1..] == s;
    }
  }

  lemma {:induction false} SplitJoin(parts: seq<string>, sep: char)
    requires parts != [] && AllFree(parts, sep)
    ensures Split(Join(parts, sep), sep) == parts
  {
    if |parts| == 1 {
      SplitFree(parts[0], sep);
    } else {
      SplitHead(parts[0], Join(parts[1..], sep), sep);
      SplitJoin(parts[1..], sep);
    }
  }

  /** Separators in all the parts together. */
  function Within(parts: seq<string>, sep: char): nat {
    if parts == [] then 0 else Occurrences(parts[0], sep) + Within(parts[1..], sep)
  }

  lemma {:induction false} WithinConcat(a: seq<string>, b: seq<string>, sep: char)
    ensures Within(a + b, sep) == Within(a, sep) + Within(b, sep)
  {
    if a == [] {
      assert a + b == b;
    } else {
      assert (a + b)[1..] == a[1..] + b;
      WithinConcat(a[1..], b, sep);
    }
  }

  lemma {:induction false} WithinNone(parts: seq<string>, sep: char)
    ensures Within(parts, sep) == 0 <==> AllFree(parts, sep)
  {
    if parts != [] {
      FreeMeansNone(parts[0], sep);
      WithinNone(parts[1..], sep);
      assert forall i :: 0 < i < |parts| ==> parts[i] == parts[1..][i - 1];
    }
  }

  lemma {:induction false} JoinOccurrences(parts: seq<string>, sep: char)
    requires parts != []
    ensures Occurrences(Join(parts, sep), sep) == |parts| - 1 + Within(parts, sep)
  {
    if |parts| == 1 {
      assert Within(parts[1..], sep) == 0;
    } else {
      var rest := Join(parts[1..], sep);
      JoinOccurrences(parts[1..], sep);
      OccurrencesConcat(parts[0] + [sep], rest, sep);
      OccurrencesConcat(parts[0], [sep], sep);
    }
  }
}
