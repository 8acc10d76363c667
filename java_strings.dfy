/**
 * The parts of java.lang.String (and of Long.toString) that the pipeline relies on,
 * for strings as sequences of chars.
 */
module JavaStrings {
  import opened Wrappers

  /** A Java reference of type String: null or a character sequence. */
  type JString = Option<string>

  /** How string concatenation, `%s` and `String.valueOf` render a reference: null prints as "null". */
  function Show(s: JString): string {
    match s
    case None => "null"
    case Some(v) => v
  }

  // ---------------------------------------------------------------------------
  // trim
  // ---------------------------------------------------------------------------

  /** `String.trim` removes every leading and trailing char whose code is at most U+0020. */
  predicate IsTrimmable(c: char) {
    c <= ' '
  }

  // The functions below carry only their cheap facts; the quantified ones are lemmas
  // beside them, so that a mention of a function does not bring them into every proof.

  function TrimStart(s: string): (r: string)
    ensures |r| <= |s| && r == s[|s| - |r|..]
  {
    if s != [] && IsTrimmable(s[0]) then TrimStart(s[1..]) else s
  }

  lemma {:induction false} TrimStartFacts(s: string)
    ensures var r := TrimStart(s);
      (r != [] ==> !IsTrimmable(r[0])) && forall i :: 0 <= i < |s| - |r| ==> IsTrimmable(s[i])
  {
    if s != [] && IsTrimmable(s[0]) {
      TrimStartFacts(s[1..]);
      assert forall i :: 1 <= i < |s| ==> s[i] == s[1..][i - 1];
    }
  }

  function TrimEnd(s: string): (r: string)
    ensures |r| <= |s| && r == s[..|r|]
  {
    if s != [] && IsTrimmable(s[|s| - 1]) then TrimEnd(s[..|s| - 1]) else s
  }

  lemma {:induction false} TrimEndFacts(s: string)
    ensures var r := TrimEnd(s);
      (r != [] ==> !IsTrimmable(r[|r| - 1])) && forall i :: |r| <= i < |s| ==> IsTrimmable(s[i])
  {
    if s != [] && IsTrimmable(s[|s| - 1]) {
      TrimEndFacts(s[..|s| - 1]);
    }
  }

  /** `String.trim`. */
  function Trim(s: string): (r: string)
    ensures |r| <= |s|
    ensures s == [] || (!IsTrimmable(s[0]) && !IsTrimmable(s[|s| - 1])) ==> r == s
  {
    TrimEnd(TrimStart(s))
  }

  /** What `trim` leaves is blank-free at both ends, and it is empty exactly for a blank string. */
  lemma TrimFacts(s: string)
    ensures var r := Trim(s);
      && (r != [] ==> !IsTrimmable(r[0]) && !IsTrimmable(r[|r| - 1]))
      && (r == [] <==> forall i :: 0 <= i < |s| ==> IsTrimmable(s[i]))
  {
    var t := TrimStart(s);
    TrimStartFacts(s);
    TrimEndFacts(t);
    var r := TrimEnd(t);
    if r != [] {
      assert r[0] == t[0];
    }
    TrimEmptyIffBlank(s);
  }

  lemma TrimEmptyIffBlank(s: string)
    ensures Trim(s) == [] <==> forall i :: 0 <= i < |s| ==> IsTrimmable(s[i])
  {
    var t := TrimStart(s);
    var k := |s| - |t|;
    TrimStartFacts(s);
    TrimEndFacts(t);
    if TrimEnd(t) != [] {
      assert t[0] == s[k] && !IsTrimmable(s[k]);
    } else {
      assert t == [];
    }
  }

  /** Trimming twice is trimming once. */
  lemma TrimIdempotent(s: string)
    ensures Trim(Trim(s)) == Trim(s)
  {
    TrimFacts(s);
  }

  // ---------------------------------------------------------------------------
  // counting and split
  // ---------------------------------------------------------------------------

  /** The number of chars of `s` that belong to `cs`. */
  function CountIn(s: string, cs: set<char>): (n: nat)
    ensures n <= |s|
  {
    if s == [] then 0 else (if s[0] in cs then 1 else 0) + CountIn(s[1..], cs)
  }

  /** Nothing is counted exactly when no char of `s` is in `cs`. */
  lemma {:induction false} CountInZero(s: string, cs: set<char>)
    ensures CountIn(s, cs) == 0 <==> forall i :: 0 <= i < |s| ==> s[i] !in cs
  {
    if s != [] {
      CountInZero(s[1..], cs);
      assert forall i :: 1 <= i < |s| ==> s[i] == s[1..][i - 1];
    }
  }

  /** For one char: nothing counted exactly when it does not occur. */
  lemma CountOfOneZero(s: string, c: char)
    ensures CountIn(s, {c}) == 0 <==> c !in s
  {
    CountInZero(s, {c});
  }

  lemma {:induction false} CountInAppend(a: string, b: string, cs: set<char>)
    ensures CountIn(a + b, cs) == CountIn(a, cs) + CountIn(b, cs)
  {
    if a == [] {
      assert a + b == b;
    } else {
      assert (a + b)[0] == a[0] && (a + b)[1..] == a[1..] + b;
      CountInAppend(a[1..], b, cs);
    }
  }

  /**
   * The substrings that lie between the occurrences of chars of `delims`, in order,
   * empty ones included: one more piece than there are delimiters.
   */
  function Pieces(s: string, delims: set<char>): (r: seq<string>)
    ensures |r| == CountIn(s, delims) + 1
  {
    if s == [] then [""]
    else
      var rest := Pieces(s[1..], delims);
      if s[0] in delims then [""] + rest else [[s[0]] + rest[0]] + rest[1..]
  }

  /** Removes the empty strings at the end of a list. */
  function DropTrailingEmpty(xs: seq<string>): (r: seq<string>)
    ensures |r| <= |xs|
  {
    if xs != [] && xs[|xs| - 1] == "" then DropTrailingEmpty(xs[..|xs| - 1]) else xs
  }

  /** Only empty strings are dropped, all of them from the end. */
  lemma {:induction false} DropTrailingEmptyFacts(xs: seq<string>)
    ensures var r := DropTrailingEmpty(xs);
      && r == xs[..|r|]
      && (r == [] || r[|r| - 1] != "")
      && forall i :: |r| <= i < |xs| ==> xs[i] == ""
  {
    if xs != [] && xs[|xs| - 1] == "" {
      DropTrailingEmptyFacts(xs[..|xs| - 1]);
    }
  }

  /**
   * `String.split(regex)` (limit 0) for a regex that matches exactly one char of `delims`:
   * with no match the result is the whole input; otherwise the pieces between matches,
   * leading empty pieces kept and trailing empty pieces dropped.
   */
  function Split(s: string, delims: set<char>): (r: seq<string>)
    ensures CountIn(s, delims) == 0 ==> r == [s]
    ensures |r| <= CountIn(s, delims) + 1
  {
    if CountIn(s, delims) == 0 then [s] else DropTrailingEmpty(Pieces(s, delims))
  }

  lemma {:induction false} PiecesOfUndelimited(s: string, delims: set<char>)
    requires CountIn(s, delims) == 0
    ensures Pieces(s, delims) == [s]
  {
    if s != [] {
      PiecesOfUndelimited(s[1..], delims);
      assert [s[0]] + s[1..] == s;
    }
  }

  /** No piece holds a delimiter. */
  lemma {:induction false} PiecesDelimiterFree(s: string, delims: set<char>)
    ensures forall i, j :: 0 <= i < |Pieces(s, delims)| && 0 <= j < |Pieces(s, delims)[i]| ==>
      Pieces(s, delims)[i][j] !in delims
  {
    var r := Pieces(s, delims);
    if s != [] {
      PiecesDelimiterFree(s[1..], delims);
      var rest := Pieces(s[1..], delims);
      forall i, j | 0 <= i < |r| && 0 <= j < |r[i]|
        ensures r[i][j] !in delims
      {
        if s[0] in delims {
          assert r[i] == rest[i - 1];
        } else if i == 0 {
          if j > 0 {
            assert r[0][j] == rest[0][j - 1];
          }
        } else {
          assert r[i] == rest[i];
        }
      }
    }
  }

  /** No element of a split holds a delimiter. */
  lemma SplitDelimiterFree(s: string, delims: set<char>)
    ensures forall i, j :: 0 <= i < |Split(s, delims)| && 0 <= j < |Split(s, delims)[i]| ==>
      Split(s, delims)[i][j] !in delims
  {
    if CountIn(s, delims) == 0 {
      CountInZero(s, delims);
    } else {
      PiecesDelimiterFree(s, delims);
      DropTrailingEmptyFacts(Pieces(s, delims));
      var r, p := Split(s, delims), Pieces(s, delims);
      forall i, j | 0 <= i < |r| && 0 <= j < |r[i]|
        ensures r[i][j] !in delims
      {
        assert r[i] == p[i];
      }
    }
  }

  /** Cutting at one delimiter splits the pieces into those of either side. */
  lemma {:induction false} PiecesAroundDelimiter(a: string, d: char, b: string, delims: set<char>)
    requires d in delims
    ensures Pieces(a + [d] + b, delims) == Pieces(a, delims) + Pieces(b, delims)
  {
    if a == [] {
      assert a + [d] + b == [d] + b;
      assert ([d] + b)[1..] == b;
    } else {
      assert (a + [d] + b)[1..] == a[1..] + [d] + b;
      PiecesAroundDelimiter(a[1..], d, b, delims);
    }
  }

  /** A string with exactly one delimiter strictly inside it splits into the two sides. */
  lemma SplitAtSingleDelimiter(s: string, k: nat, delims: set<char>)
    requires 0 < k < |s| - 1 && s[k] in delims
    requires CountIn(s, delims) == 1
    ensures Split(s, delims) == [s[..k], s[k + 1..]]
  {
    assert s == s[..k] + [s[k]] + s[k + 1..];
    CountInAppend(s[..k] + [s[k]], s[k + 1..], delims);
    CountInAppend(s[..k], [s[k]], delims);
    PiecesOfUndelimited(s[..k], delims);
    PiecesOfUndelimited(s[k + 1..], delims);
    PiecesAroundDelimiter(s[..k], s[k], s[k + 1..], delims);
  }

  // ---------------------------------------------------------------------------
  // replace
  // ---------------------------------------------------------------------------

  /** `String.replace(CharSequence, CharSequence)` for a one-char target: every occurrence, left to right. */
  function Replace(s: string, c: char, rep: string): (r: string)
  {
    if s == [] then [] else (if s[0] == c then rep else [s[0]]) + Replace(s[1..], c, rep)
  }

  /** With a replacement free of `c`, no `c` is left, and every other char not in the replacement stays or stays absent. */
  lemma {:induction false} ReplaceFacts(s: string, c: char, rep: string)
    ensures c !in rep ==> c !in Replace(s, c, rep)
    ensures forall x :: x != c && x !in rep ==> (x in Replace(s, c, rep) <==> x in s)
  {
    if s != [] {
      ReplaceFacts(s[1..], c, rep);
      assert s == [s[0]] + s[1..];
    }
  }

  lemma ReplaceOfChar(x: char, c: char, rep: string)
    ensures Replace([x], c, rep) == if x == c then rep else [x]
  {
    assert [x][1..] == [];
  }

  /** A text without `c` is left as it is. */
  lemma {:induction false} ReplaceAbsent(s: string, c: char, rep: string)
    requires c !in s
    ensures Replace(s, c, rep) == s
  {
    if s != [] {
      assert s[1..] == s[1..] && c !in s[1..] by {
        assert forall x :: x in s[1..] ==> x in s;
      }
      ReplaceAbsent(s[1..], c, rep);
      assert s == [s[0]] + s[1..];
    }
  }

  lemma {:induction false} ReplaceAppend(a: string, b: string, c: char, rep: string)
    ensures Replace(a + b, c, rep) == Replace(a, c, rep) + Replace(b, c, rep)
  {
    if a == [] {
      assert a + b == b;
    } else {
      assert (a + b)[0] == a[0] && (a + b)[1..] == a[1..] + b;
      ReplaceAppend(a[1..], b, c, rep);
    }
  }

  // ---------------------------------------------------------------------------
  // decimal numbers
  // ---------------------------------------------------------------------------

  predicate IsDigit(c: char) {
    '0' <= c <= '9'
  }

  predicate AllDigits(s: string) {
    forall i :: 0 <= i < |s| ==> IsDigit(s[i])
  }

  function DigitChar(d: nat): (c: char)
    requires d < 10
    ensures IsDigit(c)
  {
    ('0' as int + d) as char
  }

  /** The number a string of decimal digits denotes. */
  function DecimalValue(s: string): nat
    requires AllDigits(s)
  {
    if s == [] then 0 else 10 * DecimalValue(s[..|s| - 1]) + (s[|s| - 1] as int - '0' as int)
  }

  /** `Long.toString` for a non-negative value. */
  function NatToString(n: nat): (s: string)
    ensures s != [] && AllDigits(s)
    ensures n > 0 ==> s[0] != '0'
    decreases n
  {
    if n < 10 then [DigitChar(n)] else NatToString(n / 10) + [DigitChar(n % 10)]
  }

  lemma {:induction false} NatToStringRoundTrip(n: nat)
    ensures DecimalValue(NatToString(n)) == n
    decreases n
  {
    if n >= 10 {
      NatToStringRoundTrip(n / 10);
      var s := NatToString(n);
      assert s[..|s| - 1] == NatToString(n / 10);
    }
  }

  /** How `%d`, and concatenation, render a `Long` that may be null. */
  function ShowNumber(n: Option<nat>): string {
    match n
    case None => "null"
    case Some(v) => NatToString(v)
  }
}
