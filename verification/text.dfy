/** String operations of the JavaScript runtime that the application relies
    on, restricted to what it uses: ASCII lower-casing, `includes`, `trim`,
    `split` on one character, decimal rendering and parsing, `padStart`,
    whitespace-run replacement and a character-code ordering that stands in
    for `localeCompare`. */
module Text {

  import opened Common
  import Seqs

  // ---------------------------------------------------------------- case

  /** Lower-cases ASCII letters and leaves every other character alone. */
  function LowerChar(c: char): char
  {
    if 'A' <= c <= 'Z' then (c as int + 32) as char else c
  }

  /** `toLowerCase`, restricted to ASCII letters. */
  function Lower(s: string): (r: string)
    ensures |r| == |s|
    ensures forall i :: 0 <= i < |s| ==> r[i] == LowerChar(s[i])
  {
    seq(|s|, i requires 0 <= i < |s| => LowerChar(s[i]))
  }

  // ---------------------------------------------------------- substrings

  /** `hay.includes(needle)`. */
  predicate Contains(hay: string, needle: string)
    decreases |hay|
  {
    needle <= hay || (|hay| > 0 && Contains(hay[1..], needle))
  }

  /** `includes` holds exactly when the needle starts at some offset of the hay. */
  lemma {:induction false} ContainsAt(hay: string, needle: string)
    ensures Contains(hay, needle) <==> exists i :: 0 <= i <= |hay| && needle <= hay[i..]
    decreases |hay|
  {
    if needle <= hay {
      assert hay[0..] == hay;
    } else if |hay| > 0 {
      ContainsAt(hay[1..], needle);
      if Contains(hay[1..], needle) {
        var i :| 0 <= i <= |hay[1..]| && needle <= hay[1..][i..];
        assert hay[1..][i..] == hay[i + 1..];
      }
      if i :| 0 <= i <= |hay| && needle <= hay[i..] {
        assert i != 0;
        assert hay[1..][i - 1..] == hay[i..];
      }
    } else {
      forall i | 0 <= i <= |hay| ensures !(needle <= hay[i..]) {
        assert hay[i..] == hay;
      }
    }
  }

  /** Every string contains the empty string. */
  lemma ContainsEmpty(hay: string)
    ensures Contains(hay, "")
  {
  }

  // ---------------------------------------------------------- whitespace

  /** The characters JavaScript's `trim` and the regular-expression class
      `\s` treat as white space (WhiteSpace and LineTerminator). */
  predicate IsSpace(c: char)
  {
    var n := c as int;
    (9 <= n <= 13) || n == 32 || n == 0xA0 || n == 0x1680 || (0x2000 <= n <= 0x200A)
    || n == 0x2028 || n == 0x2029 || n == 0x202F || n == 0x205F || n == 0x3000 || n == 0xFEFF
  }

  /** The length of the white-space run at the start of `s`. */
  function LeadingSpaces(s: string): (n: nat)
    ensures n <= |s|
    ensures forall i :: 0 <= i < n ==> IsSpace(s[i])
    ensures n < |s| ==> !IsSpace(s[n])
    decreases |s|
  {
    if |s| > 0 && IsSpace(s[0]) then 1 + LeadingSpaces(s[1..]) else 0
  }

  /** The length of the white-space run at the end of `s`. */
  function TrailingSpaces(s: string): (n: nat)
    ensures n <= |s|
    ensures forall i :: |s| - n <= i < |s| ==> IsSpace(s[i])
    ensures n < |s| ==> !IsSpace(s[|s| - 1 - n])
    decreases |s|
  {
    if |s| > 0 && IsSpace(s[|s| - 1]) then 1 + TrailingSpaces(s[..|s| - 1]) else 0
  }

  /** `trim`: the result is a slice of `s` that neither starts nor ends with
      white space, and everything cut away is white space. */
  function Trim(s: string): (r: string)
    ensures |r| <= |s|
    ensures |r| > 0 ==> !IsSpace(r[0]) && !IsSpace(r[|r| - 1])
    ensures LeadingSpaces(s) + |r| <= |s| && r == s[LeadingSpaces(s)..LeadingSpaces(s) + |r|]
    ensures forall i :: 0 <= i < |s| && !(LeadingSpaces(s) <= i < LeadingSpaces(s) + |r|) ==> IsSpace(s[i])
  {
    var a := LeadingSpaces(s);
    var t := s[a..];
    var b := TrailingSpaces(t);
    assert forall i :: a <= i < |s| ==> s[i] == t[i - a];
    t[..|t| - b]
  }

  /** A string trims to nothing exactly when it is all white space. */
  lemma TrimBlank(s: string)
    ensures Trim(s) == "" <==> forall i :: 0 <= i < |s| ==> IsSpace(s[i])
  {
    var r := Trim(s);
    if r != "" {
      assert s[LeadingSpaces(s)] == r[0];
    }
  }

  /** A string that neither starts nor ends with white space trims to itself. */
  lemma TrimIdentity(s: string)
    requires |s| > 0 ==> !IsSpace(s[0]) && !IsSpace(s[|s| - 1])
    ensures Trim(s) == s
  {
    var r := Trim(s);
    if |s| > 0 {
      assert LeadingSpaces(s) == 0;
    }
  }

  // --------------------------------------------------------- split/join

  /** `s.split(sep)` for a one-character separator: the maximal separator-free
      pieces between separators, so there is always at least one piece. */
  function Split(s: string, sep: char): (parts: seq<string>)
    ensures |parts| >= 1
    ensures forall i :: 0 <= i < |parts| ==> sep !in parts[i]
    decreases |s|
  {
    if |s| == 0 then [""]
    else
      var rest := Split(s[1..], sep);
      if s[0] == sep then [""] + rest else [[s[0]] + rest[0]] + rest[1..]
  }

  /** `parts.join(sep)`. */
  function Join(parts: seq<string>, sep: char): string
  {
    if |parts| == 0 then ""
    else if |parts| == 1 then parts[0]
    else parts[0] + [sep] + Join(parts[1..], sep)
  }

  /** Joining the pieces of a split restores the original string. */
  lemma {:induction false} JoinSplit(s: string, sep: char)
    ensures Join(Split(s, sep), sep) == s
    decreases |s|
  {
    if |s| > 0 {
      JoinSplit(s[1..], sep);
      var rest := Split(s[1..], sep);
      if s[0] == sep {
        assert Split(s, sep)[1..] == rest;
      } else {
        var parts := Split(s, sep);
        assert parts[0] == [s[0]] + rest[0];
        if |rest| > 1 {
          assert parts[1..] == rest[1..];
          assert Join(rest, sep) == rest[0] + [sep] + Join(rest[1..], sep);
        }
      }
    }
  }

  /** A separator-free string splits into itself. */
  lemma {:induction false} SplitNoSep(p: string, sep: char)
    requires sep !in p
    ensures Split(p, sep) == [p]
    decreases |p|
  {
    if |p| > 0 {
      SplitNoSep(p[1..], sep);
      assert [p[0]] + p[1..] == p;
    }
  }

  /** A separator-free head followed by the separator splits off as one piece. */
  lemma {:induction false} SplitHead(p: string, rest: string, sep: char)
    requires sep !in p
    ensures Split(p + [sep] + rest, sep) == [p] + Split(rest, sep)
    decreases |p|
  {
    var s := p + [sep] + rest;
    if |p| == 0 {
      assert s[1..] == rest;
    } else {
      assert s[1..] == p[1..] + [sep] + rest;
      SplitHead(p[1..], rest, sep);
      assert [p[0]] + p[1..] == p;
    }
  }

  /** Splitting a join of separator-free pieces gives the pieces back. */
  lemma {:induction false} SplitJoin(parts: seq<string>, sep: char)
    requires |parts| >= 1
    requires forall i :: 0 <= i < |parts| ==> sep !in parts[i]
    ensures Split(Join(parts, sep), sep) == parts
    decreases |parts|
  {
    if |parts| == 1 {
      SplitNoSep(parts[0], sep);
    } else {
      SplitJoin(parts[1..], sep);
      SplitHead(parts[0], Join(parts[1..], sep), sep);
      assert [parts[0]] + parts[1..] == parts;
    }
  }

  /** Peels the last piece off a join of at least two pieces. */
  lemma {:induction false} JoinLast(parts: seq<string>, sep: char)
    requires |parts| >= 2
    ensures Join(parts, sep) == Join(parts[..|parts| - 1], sep) + [sep] + parts[|parts| - 1]
    decreases |parts|
  {
    if |parts| > 2 {
      JoinLast(parts[1..], sep);
      assert parts[1..][..|parts| - 2] == parts[..|parts| - 1][1..];
    }
  }

  /** The last piece of a split is the separator-free suffix that starts
      right after the last separator (or is the whole string). */
  lemma LastPiece(s: string, sep: char)
    ensures var parts := Split(s, sep);
            var r := parts[|parts| - 1];
            && sep !in r
            && |r| <= |s| && r == s[|s| - |r|..]
            && (|r| < |s| ==> s[|s| - |r| - 1] == sep)
  {
    var parts := Split(s, sep);
    JoinSplit(s, sep);
    if |parts| >= 2 {
      JoinLast(parts, sep);
    }
  }

  /** After a separator, a separator-free tail is the last piece. */
  lemma LastPieceAfter(p: string, t: string, sep: char)
    requires |p| > 0 && p[|p| - 1] == sep
    requires sep !in t
    ensures var parts := Split(p + t, sep); parts[|parts| - 1] == t
  {
    var s := p + t;
    LastPiece(s, sep);
    var parts := Split(s, sep);
    var r := parts[|parts| - 1];
    assert r == s[|s| - |t|..] == t;
  }

  // ------------------------------------------------------------ numbers

  predicate IsDigit(c: char)
  {
    '0' <= c <= '9'
  }

  predicate AllDigits(s: string)
  {
    forall i :: 0 <= i < |s| ==> IsDigit(s[i])
  }

  function DigitChar(d: nat): (c: char)
    requires d < 10
    ensures IsDigit(c)
  {
    (48 + d) as char
  }

  function DigitValue(c: char): (d: nat)
    requires IsDigit(c)
    ensures d < 10
  {
    c as int - 48
  }

  /** `n.toString()` for a non-negative integer: at least one digit and no
      leading zero unless the number is 0. */
  function Decimal(n: nat): (r: string)
    ensures |r| >= 1 && AllDigits(r)
    ensures |r| > 1 ==> r[0] != '0'
    ensures n < 10 <==> |r| == 1
    decreases n
  {
    if n < 10 then [DigitChar(n)] else Decimal(n / 10) + [DigitChar(n % 10)]
  }

  /** The value of a string of decimal digits (the empty string is 0). */
  function DigitsValue(s: string): nat
    requires AllDigits(s)
    decreases |s|
  {
    if |s| == 0 then 0 else 10 * DigitsValue(s[..|s| - 1]) + DigitValue(s[|s| - 1])
  }

  /** Reading back a rendered number gives the number. */
  lemma {:induction false} DecimalRoundTrip(n: nat)
    ensures DigitsValue(Decimal(n)) == n
    decreases n
  {
    if n >= 10 {
      DecimalRoundTrip(n / 10);
      var r := Decimal(n);
      assert r[..|r| - 1] == Decimal(n / 10);
    }
  }

  /** A string of zeros is worth 0. */
  lemma {:induction false} ZerosValue(z: string)
    requires forall i :: 0 <= i < |z| ==> z[i] == '0'
    ensures AllDigits(z) && DigitsValue(z) == 0
    decreases |z|
  {
    if |z| > 0 {
      ZerosValue(z[..|z| - 1]);
    }
  }

  /** Leading zeros do not change the value of a digit string. */
  lemma {:induction false} LeadingZeros(z: string, s: string)
    requires forall i :: 0 <= i < |z| ==> z[i] == '0'
    requires AllDigits(s)
    ensures AllDigits(z + s) && DigitsValue(z + s) == DigitsValue(s)
    decreases |s|
  {
    ZerosValue(z);
    if |s| == 0 {
      assert z + s == z;
    } else {
      LeadingZeros(z, s[..|s| - 1]);
      assert (z + s)[..|z + s| - 1] == z + s[..|s| - 1];
    }
  }

  /** `Number(s)` for the strings this application feeds it: surrounding
      white space is ignored, the empty string is 0, a digit string is its
      value and anything else is NaN (`None`). */
  function NumberOf(s: string): (r: Option<nat>)
    ensures r.Some? <==> AllDigits(Trim(s))
  {
    var t := Trim(s);
    if AllDigits(t) then Some(DigitsValue(t)) else None
  }

  /** A run of `n` copies of `c`. */
  function Repeat(c: char, n: nat): (r: string)
    ensures |r| == n
    ensures forall i :: 0 <= i < n ==> r[i] == c
  {
    seq(n, _ => c)
  }

  /** `s.padStart(width, c)`: `s` preceded by as many copies of `c` as it
      takes to reach `width`; a string already that long is unchanged. */
  function PadStart(s: string, width: nat, c: char): (r: string)
    ensures |r| == if |s| >= width then |s| else width
    ensures r[|r| - |s|..] == s
    ensures forall i :: 0 <= i < |r| - |s| ==> r[i] == c
  {
    if |s| >= width then s else Repeat(c, width - |s|) + s
  }

  /** `Number` of a non-empty digit string is its value. */
  lemma NumberOfDigits(s: string)
    requires |s| > 0 && AllDigits(s)
    ensures NumberOf(s) == Some(DigitsValue(s))
  {
    assert IsDigit(s[0]) && IsDigit(s[|s| - 1]);
    TrimIdentity(s);
  }

  /** `Number` reads back what `toString` wrote. */
  lemma NumberOfDecimal(n: nat)
    ensures NumberOf(Decimal(n)) == Some(n)
  {
    NumberOfDigits(Decimal(n));
    DecimalRoundTrip(n);
  }

  /** `String(n).padStart(2, '0')`: at least two digits, zero-filled. */
  function TwoDigits(n: nat): (r: string)
    ensures |r| >= 2 && AllDigits(r)
    ensures n >= 10 ==> r == Decimal(n)
  {
    PadStart(Decimal(n), 2, '0')
  }

  /** `Number` reads back a zero-filled number: the padding is ignored. */
  lemma NumberOfTwoDigits(n: nat)
    ensures NumberOf(TwoDigits(n)) == Some(n)
  {
    var d := Decimal(n);
    var r := TwoDigits(n);
    var z := r[..|r| - |d|];
    assert r == z + d by {
      assert r[|r| - |d|..] == d;
    }
    LeadingZeros(z, d);
    DecimalRoundTrip(n);
    NumberOfDigits(r);
  }

  // ----------------------------------------------- white-space runs

  /** `s.replace(/\s+/g, rep)`: every maximal white-space run becomes one `rep`. */
  function ReplaceSpaceRuns(s: string, rep: char): (r: string)
    requires !IsSpace(rep)
    ensures forall i :: 0 <= i < |r| ==> !IsSpace(r[i])
    ensures forall i :: 0 <= i < |r| ==> r[i] == rep || r[i] in s
    ensures |r| <= |s|
    ensures |r| == 0 <==> |s| == 0
    decreases |s|
  {
    if |s| == 0 then ""
    else if IsSpace(s[0]) then [rep] + ReplaceSpaceRuns(s[LeadingSpaces(s)..], rep)
    else [s[0]] + ReplaceSpaceRuns(s[1..], rep)
  }

  /** A string without white space passes through unchanged. */
  lemma {:induction false} ReplaceSpaceRunsNoSpace(s: string, rep: char)
    requires !IsSpace(rep)
    requires forall i :: 0 <= i < |s| ==> !IsSpace(s[i])
    ensures ReplaceSpaceRuns(s, rep) == s
    decreases |s|
  {
    if |s| > 0 {
      ReplaceSpaceRunsNoSpace(s[1..], rep);
    }
  }

  /** A white-space-free prefix passes through unchanged. */
  lemma {:induction false} ReplaceSpaceRunsWord(x: string, y: string, rep: char)
    requires !IsSpace(rep)
    requires forall i :: 0 <= i < |x| ==> !IsSpace(x[i])
    ensures ReplaceSpaceRuns(x + y, rep) == x + ReplaceSpaceRuns(y, rep)
    decreases |x|
  {
    if |x| > 0 {
      assert x + y == [x[0]] + (x[1..] + y);
      ReplaceSpaceRunsCons(x[0], x[1..] + y, rep);
      ReplaceSpaceRunsWord(x[1..], y, rep);
      assert x == [x[0]] + x[1..];
    } else {
      assert x + y == y;
    }
  }

  /** One character that is not white space passes through unchanged. */
  lemma ReplaceSpaceRunsCons(c: char, t: string, rep: char)
    requires !IsSpace(rep) && !IsSpace(c)
    ensures ReplaceSpaceRuns([c] + t, rep) == [c] + ReplaceSpaceRuns(t, rep)
  {
    assert ([c] + t)[1..] == t;
  }

  /** A whole white-space run (one not followed by more white space)
      becomes exactly one `rep`. */
  lemma ReplaceSpaceRunsRun(w: string, y: string, rep: char)
    requires !IsSpace(rep)
    requires |w| > 0 && forall i :: 0 <= i < |w| ==> IsSpace(w[i])
    requires |y| == 0 || !IsSpace(y[0])
    ensures ReplaceSpaceRuns(w + y, rep) == [rep] + ReplaceSpaceRuns(y, rep)
  {
    var s := w + y;
    assert IsSpace(s[0]);
    assert forall i :: 0 <= i < |w| ==> IsSpace(s[i]);
    assert |w| < |s| ==> s[|w|] == y[0];
    LeadingSpacesExactly(s, |w|);
    assert s[|w|..] == y;
  }

  /** A run of `k` white-space characters not followed by another one is
      the whole leading run. */
  lemma {:induction false} LeadingSpacesExactly(s: string, k: nat)
    requires k <= |s|
    requires forall i :: 0 <= i < k ==> IsSpace(s[i])
    requires k < |s| ==> !IsSpace(s[k])
    ensures LeadingSpaces(s) == k
    decreases k
  {
    if k > 0 {
      LeadingSpacesExactly(s[1..], k - 1);
    }
  }

  /** Lower-casing works character by character, so it distributes over
      concatenation. */
  lemma LowerAppend(a: string, b: string)
    ensures Lower(a + b) == Lower(a) + Lower(b)
  {
    assert forall i :: 0 <= i < |a + b| ==> Lower(a + b)[i] == (Lower(a) + Lower(b))[i];
  }

  /** Lower-casing a word and then replacing white-space runs: the word
      before a whole run is lower-cased and followed by exactly one `rep`. */
  lemma LowerThenReplaceRun(a: string, w: string, b: string, rep: char)
    requires !IsSpace(rep)
    requires forall i :: 0 <= i < |a| ==> !IsSpace(a[i])
    requires |w| > 0 && forall i :: 0 <= i < |w| ==> IsSpace(w[i])
    requires |b| == 0 || !IsSpace(b[0])
    ensures ReplaceSpaceRuns(Lower(a + w + b), rep) == Lower(a) + [rep] + ReplaceSpaceRuns(Lower(b), rep)
  {
    var la, lb := Lower(a), Lower(b);
    LowerAroundSpaces(a, w, b);
    forall i | 0 <= i < |la|
      ensures !IsSpace(la[i])
    {
      LowerSpaceAt(a, i);
    }
    if |b| > 0 {
      LowerSpaceAt(b, 0);
    }
    ReplaceSpaceRunsWord(la, w + lb, rep);
    ReplaceSpaceRunsRun(w, lb, rep);
  }

  /** Lower-casing leaves white space where it is and as it is. */
  lemma LowerSpaceAt(s: string, i: int)
    requires 0 <= i < |s|
    ensures IsSpace(Lower(s)[i]) <==> IsSpace(s[i])
  {
  }

  lemma LowerAroundSpaces(a: string, w: string, b: string)
    requires forall i :: 0 <= i < |w| ==> IsSpace(w[i])
    ensures Lower(a + w + b) == Lower(a) + (w + Lower(b))
  {
    LowerAppend(a + w, b);
    LowerAppend(a, w);
    assert Lower(w) == w;
  }

  /** The replacement keeps every non-white-space character, in order:
      dropping `rep` from the result is dropping white space and `rep` from the
      input. */
  lemma {:induction false} ReplaceSpaceRunsKeepsText(s: string, rep: char)
    requires !IsSpace(rep)
    ensures Seqs.Filter(ReplaceSpaceRuns(s, rep), c => c != rep)
         == Seqs.Filter(s, c => !IsSpace(c) && c != rep)
    decreases |s|
  {
    if |s| > 0 {
      if IsSpace(s[0]) {
        var n := LeadingSpaces(s);
        ReplaceSpaceRunsKeepsText(s[n..], rep);
        SpaceRunFilter(s, n, rep);
      } else {
        ReplaceSpaceRunsKeepsText(s[1..], rep);
      }
    }
  }

  /** Dropping a leading white-space run does not change the kept text. */
  lemma {:induction false} SpaceRunFilter(s: string, n: nat, rep: char)
    requires n <= |s|
    requires forall i :: 0 <= i < n ==> IsSpace(s[i])
    ensures Seqs.Filter(s, c => !IsSpace(c) && c != rep) == Seqs.Filter(s[n..], c => !IsSpace(c) && c != rep)
    decreases n
  {
    if n > 0 {
      SpaceRunFilter(s[1..], n - 1, rep);
      assert s[1..][n - 1..] == s[n..];
    }
  }

  // --------------------------------------------------------- ordering

  /** Lexicographic order on character codes; the model's stand-in for
      `localeCompare(...) <= 0`. */
  predicate LexLe(a: string, b: string)
    decreases |a|
  {
    |a| == 0 || (|b| > 0 && (a[0] < b[0] || (a[0] == b[0] && LexLe(a[1..], b[1..]))))
  }

  lemma {:induction false} LexTotal(a: string, b: string)
    ensures LexLe(a, b) || LexLe(b, a)
    decreases |a|
  {
    if |a| > 0 && |b| > 0 && a[0] == b[0] {
      LexTotal(a[1..], b[1..]);
    }
  }

  lemma {:induction false} LexTrans(a: string, b: string, c: string)
    requires LexLe(a, b) && LexLe(b, c)
    ensures LexLe(a, c)
    decreases |a|
  {
    if |a| > 0 && a[0] == b[0] && b[0] == c[0] {
      LexTrans(a[1..], b[1..], c[1..]);
    }
  }
}
