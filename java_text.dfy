/** The few `java.lang.String` operations the core relies on, with the JDK's
    own semantics: `trim`, `isBlank`, `split` on a one-character separator
    (the JDK's fast path, which drops trailing empty strings), and
    `toUpperCase` on ASCII letters. */
module JavaText {

  /** `String.trim` strips every character whose code is at most U+0020. */
  predicate IsTrimmable(c: char) {
    c <= ' '
  }

  function TrimStart(s: string): (r: string)
    ensures |r| <= |s| && r == s[|s| - |r|..]
    ensures r != [] ==> !IsTrimmable(r[0])
    ensures forall i | 0 <= i < |s| - |r| :: IsTrimmable(s[i])
    decreases |s|
  {
    if s != [] && IsTrimmable(s[0]) then TrimStart(s[1..]) else s
  }

  function TrimEnd(s: string): (r: string)
    ensures |r| <= |s| && r == s[..|r|]
    ensures r != [] ==> !IsTrimmable(r[|r| - 1])
    ensures forall i | |r| <= i < |s| :: IsTrimmable(s[i])
    decreases |s|
  {
    if s != [] && IsTrimmable(s[|s| - 1]) then TrimEnd(s[..|s| - 1]) else s
  }

  /** `String.trim()`. */
  function Trim(s: string): (r: string)
    ensures |r| <= |s|
    ensures r == [] <==> forall i | 0 <= i < |s| :: IsTrimmable(s[i])
    ensures r != [] ==> !IsTrimmable(r[0]) && !IsTrimmable(r[|r| - 1])
    ensures s != [] && !IsTrimmable(s[0]) && !IsTrimmable(s[|s| - 1]) ==> r == s
  {
    var front := TrimStart(s);
    var r := TrimEnd(front);
    assert r != [] ==> r[0] == front[0];
    assert r == [] ==> front == [];
    r
  }

  /** Trimming twice is trimming once. */
  lemma {:induction false} TrimIdempotent(s: string)
    ensures Trim(Trim(s)) == Trim(s)
  {
  }

  /** `s[a..b]` is what is left of `s` once its leading and trailing runs of
      trimmable characters are stripped. */
  predicate IsTrimmedMiddle(s: string, a: int, b: int) {
    && 0 <= a <= b <= |s|
    && (forall i | 0 <= i < a :: IsTrimmable(s[i]))
    && (forall i | b <= i < |s| :: IsTrimmable(s[i]))
    && (a < b ==> !IsTrimmable(s[a]) && !IsTrimmable(s[b - 1]))
  }

  /** What `trim` leaves is the part of `s` between a leading and a trailing
      run of trimmable characters, and it neither starts nor ends with one. */
  lemma {:induction false} TrimKeepsTheMiddle(s: string)
    ensures exists a, b :: IsTrimmedMiddle(s, a, b) && Trim(s) == s[a..b]
  {
    StrippedBothEnds(s, TrimStart(s), TrimEnd(TrimStart(s)));
  }

  /** Proof step: a prefix `r` of a suffix `front` of `s`, where the parts of
      `s` cut off on either side are trimmable and `r` has untrimmable ends, is
      the trimmed middle of `s`. */
  lemma {:induction false} StrippedBothEnds(s: string, front: string, r: string)
    requires |front| <= |s| && front == s[|s| - |front|..]
    requires forall i | 0 <= i < |s| - |front| :: IsTrimmable(s[i])
    requires |r| <= |front| && r == front[..|r|]
    requires forall i | |r| <= i < |front| :: IsTrimmable(front[i])
    requires r != [] ==> !IsTrimmable(r[0]) && !IsTrimmable(r[|r| - 1])
    ensures exists a, b :: IsTrimmedMiddle(s, a, b) && r == s[a..b]
  {
    var a := |s| - |front|;
    forall i | a + |r| <= i < |s|
      ensures IsTrimmable(s[i])
    {
      assert s[i] == front[i - a];
    }
    if r != [] {
      assert s[a] == r[0] && s[a + |r| - 1] == r[|r| - 1];
    }
    assert IsTrimmedMiddle(s, a, a + |r|) && r == s[a..a + |r|];
  }

  /** `Character.isWhitespace`: the Unicode space, line and paragraph
      separators except the three non-breaking spaces, and the ASCII controls
      U+0009..U+000D and U+001C..U+001F. */
  predicate IsJavaWhitespace(c: char) {
    var n := c as int;
    || 0x09 <= n <= 0x0D
    || 0x1C <= n <= 0x20
    || n == 0x1680
    || 0x2000 <= n <= 0x2006
    || 0x2008 <= n <= 0x200A
    || n == 0x2028 || n == 0x2029 || n == 0x205F || n == 0x3000
  }

  /** `String.isBlank()`: empty, or whitespace only. */
  predicate IsBlank(s: string) {
    forall i | 0 <= i < |s| :: IsJavaWhitespace(s[i])
  }

  /** `String.length()`: the number of UTF-16 code units, where a character
      above U+FFFF takes two (a surrogate pair). */
  function Utf16Length(s: string): (n: nat)
    ensures |s| <= n <= 2 * |s|
    ensures (forall i | 0 <= i < |s| :: s[i] as int <= 0xFFFF) ==> n == |s|
  {
    if s == [] then 0 else Utf16Length(s[..|s| - 1]) + (if s[|s| - 1] as int > 0xFFFF then 2 else 1)
  }

  /** Index of the first `c` in `s`, or `|s|` when there is none. */
  function IndexOf(s: string, c: char): (i: nat)
    ensures i <= |s|
    ensures forall k | 0 <= k < i :: s[k] != c
    ensures i < |s| ==> s[i] == c
  {
    if s == [] || s[0] == c then 0 else 1 + IndexOf(s[1..], c)
  }

  /** The pieces of `s` between occurrences of `sep`, empty pieces included:
      one more piece than there are separators. */
  function Pieces(s: string, sep: char): (parts: seq<string>)
    ensures |parts| >= 1
    decreases |s|
  {
    var i := IndexOf(s, sep);
    if i == |s| then [s] else [s[..i]] + Pieces(s[i + 1..], sep)
  }

  /** Joins pieces back with the separator between them. */
  function Join(parts: seq<string>, sep: char): string
    requires |parts| >= 1
  {
    if |parts| == 1 then parts[0] else parts[0] + [sep] + Join(parts[1..], sep)
  }

  /** Splitting loses nothing: the pieces hold no separator and joining them
      with it gives the string back. */
  lemma {:induction false} PiecesJoin(s: string, sep: char)
    ensures Join(Pieces(s, sep), sep) == s
    ensures forall k | 0 <= k < |Pieces(s, sep)| :: sep !in Pieces(s, sep)[k]
    decreases |s|
  {
    var i := IndexOf(s, sep);
    if i < |s| {
      PiecesJoin(s[i + 1..], sep);
      var tail := Pieces(s[i + 1..], sep);
      assert Pieces(s, sep) == [s[..i]] + tail;
      assert Join(Pieces(s, sep), sep) == s[..i] + [sep] + Join(tail, sep);
      assert s == s[..i] + [sep] + s[i + 1..];
    }
  }

  /** Removes the empty strings at the end of a list of pieces. */
  function DropTrailingEmpty(parts: seq<string>): (r: seq<string>)
    ensures |r| <= |parts| && r == parts[..|r|]
    ensures r != [] ==> r[|r| - 1] != ""
    ensures forall k | |r| <= k < |parts| :: parts[k] == ""
  {
    if parts != [] && parts[|parts| - 1] == "" then DropTrailingEmpty(parts[..|parts| - 1]) else parts
  }

  /** `String.split(String.valueOf(sep))` with limit 0: the whole string when
      `sep` does not occur, otherwise the pieces without the trailing empty
      ones. */
  function Split(s: string, sep: char): seq<string> {
    if IndexOf(s, sep) == |s| then [s] else DropTrailingEmpty(Pieces(s, sep))
  }

  /** When `s` does not end with the separator, its last piece is not empty. */
  lemma {:induction false} LastPieceNonEmpty(s: string, sep: char)
    requires s != [] && s[|s| - 1] != sep
    ensures Pieces(s, sep)[|Pieces(s, sep)| - 1] != ""
    decreases |s|
  {
    var i := IndexOf(s, sep);
    if i < |s| {
      LastPieceNonEmpty(s[i + 1..], sep);
    }
  }

  /** The first piece is the text before the first separator. */
  lemma FirstPiece(s: string, sep: char)
    ensures Pieces(s, sep)[0] == s[..IndexOf(s, sep)]
  {
  }

  /** The first separator of `a + [sep] + b`, when `a` holds none, is the one
      after `a`. */
  lemma IndexOfAfter(a: string, b: string, sep: char)
    requires sep !in a
    ensures IndexOf(a + [sep] + b, sep) == |a|
  {
    assert (a + [sep] + b)[|a|] == sep;
  }

  lemma PiecesAfter(a: string, b: string, sep: char)
    requires sep !in a
    ensures Pieces(a + [sep] + b, sep) == [a] + Pieces(b, sep)
  {
    var s := a + [sep] + b;
    IndexOfAfter(a, b, sep);
    assert s[..|a|] == a;
    assert s[|a| + 1..] == b;
  }

  /** Splitting `a + [sep] + b`, with no separator in `a` and `b` not ending
      with one, gives `a` and then every piece of `b`: nothing is dropped. */
  lemma SplitAfter(a: string, b: string, sep: char)
    requires sep !in a && b != [] && b[|b| - 1] != sep
    ensures Split(a + [sep] + b, sep) == [a] + Pieces(b, sep)
  {
    var s := a + [sep] + b;
    IndexOfAfter(a, b, sep);
    LastPieceNonEmpty(b, sep);
    calc {
      Split(s, sep);
      DropTrailingEmpty(Pieces(s, sep));
      { PiecesAfter(a, b, sep); }
      DropTrailingEmpty([a] + Pieces(b, sep));
      { NothingTrailingToDrop([a] + Pieces(b, sep)); }
      [a] + Pieces(b, sep);
    }
  }

  /** A list whose last piece is not empty loses nothing. */
  lemma NothingTrailingToDrop(parts: seq<string>)
    requires parts != [] && parts[|parts| - 1] != ""
    ensures DropTrailingEmpty(parts) == parts
  {
  }

  /** A string without the separator splits into itself alone. */
  lemma SplitWithoutSeparator(s: string, sep: char)
    requires IndexOf(s, sep) == |s|
    ensures Split(s, sep) == [s]
  {
  }

  /** `Character.toUpperCase` restricted to ASCII: a-z become A-Z. */
  function UpperChar(c: char): char {
    if 'a' <= c <= 'z' then (c as int - 32) as char else c
  }

  /** `String.toUpperCase()` on ASCII text. */
  function ToUpper(s: string): (r: string)
    ensures |r| == |s|
    ensures forall i | 0 <= i < |s| :: r[i] == UpperChar(s[i])
  {
    seq(|s|, i requires 0 <= i < |s| => UpperChar(s[i]))
  }
}
