/**
 * The few `str` operations the core relies on, over `seq<char>`:
 * `trim`, ASCII `to_lowercase`, `split`/`rsplit` on one character,
 * `join`, and decimal formatting of a `usize`.
 */
module Strings {

  /** Rust's `char::is_whitespace`: the Unicode White_Space property. */
  predicate IsWhitespace(c: char) {
    || ('\t' <= c <= '\r')
    || c == ' ' || c == '\U{85}' || c == '\U{A0}' || c == '\U{1680}'
    || ('\U{2000}' <= c <= '\U{200A}')
    || c == '\U{2028}' || c == '\U{2029}' || c == '\U{202F}' || c == '\U{205F}' || c == '\U{3000}'
  }

  /** Number of whitespace characters at the start of `s`. */
  function LeadingSpace(s: string): (n: nat)
    ensures n <= |s|
    ensures forall k :: 0 <= k < n ==> IsWhitespace(s[k])
    ensures n < |s| ==> !IsWhitespace(s[n])
  {
    if |s| > 0 && IsWhitespace(s[0]) then 1 + LeadingSpace(s[1..]) else 0
  }

  /** Number of whitespace characters at the end of `s`. */
  function TrailingSpace(s: string): (n: nat)
    ensures n <= |s|
    ensures forall k :: |s| - n <= k < |s| ==> IsWhitespace(s[k])
    ensures n < |s| ==> !IsWhitespace(s[|s| - 1 - n])
  {
    if |s| > 0 && IsWhitespace(s[|s| - 1]) then 1 + TrailingSpace(s[..|s| - 1]) else 0
  }

  /** `str::trim`: the slice of `s` without its leading and trailing whitespace. */
  function Trim(s: string): (r: string)
    ensures |r| <= |s|
    ensures r == "" || (!IsWhitespace(r[0]) && !IsWhitespace(r[|r| - 1]))
    ensures LeadingSpace(s) + |r| <= |s| && r == s[LeadingSpace(s)..LeadingSpace(s) + |r|]
    ensures forall k :: 0 <= k < |s| && !(LeadingSpace(s) <= k < LeadingSpace(s) + |r|) ==> IsWhitespace(s[k])
  {
    var lead := LeadingSpace(s);
    if lead == |s| then "" else
      var trail := TrailingSpace(s);
      assert !IsWhitespace(s[lead]);
      s[lead..|s| - trail]
  }

  lemma TrimOfTrimmed(s: string)
    requires s == "" || (!IsWhitespace(s[0]) && !IsWhitespace(s[|s| - 1]))
    ensures Trim(s) == s
  {
  }

  /** Trimming twice is trimming once. */
  lemma TrimIdempotent(s: string)
    ensures Trim(Trim(s)) == Trim(s)
  {
    TrimOfTrimmed(Trim(s));
  }

  function LowerChar(c: char): (d: char)
    ensures 'A' <= c <= 'Z' ==> 'a' <= d <= 'z' && d as int - c as int == 32
    ensures !('A' <= c <= 'Z') ==> d == c
  {
    if 'A' <= c <= 'Z' then (c as int + 32) as char else c
  }

  /** `str::to_lowercase`, restricted to ASCII letters. */
  function Lower(s: string): (r: string)
    ensures |r| == |s|
    ensures forall k :: 0 <= k < |s| ==> r[k] == LowerChar(s[k])
  {
    seq(|s|, k requires 0 <= k < |s| => LowerChar(s[k]))
  }

  /** Lowercasing works character by character, so it distributes over appending one. */
  lemma LowerSnoc(s: string, c: char)
    ensures Lower(s + [c]) == Lower(s) + [LowerChar(c)]
  {
    var l, r := Lower(s + [c]), Lower(s) + [LowerChar(c)];
    assert |l| == |r|;
    forall k | 0 <= k < |l|
      ensures l[k] == r[k]
    {
      if k < |s| {
        assert (s + [c])[k] == s[k];
      }
    }
  }

  predicate IsLower(s: string) {
    forall k :: 0 <= k < |s| ==> !('A' <= s[k] <= 'Z')
  }

  lemma LowerIdempotent(s: string)
    ensures Lower(Lower(s)) == Lower(s)
  {
  }

  lemma LowerOfLower(s: string)
    requires IsLower(s)
    ensures Lower(s) == s
  {
  }

  /** `s.split(sep)`: always at least one piece; no piece contains `sep`. */
  function Split(s: string, sep: char): (r: seq<string>)
    ensures |r| >= 1
    decreases |s|
  {
    if s == [] then [""]
    else if s[0] == sep then [""] + Split(s[1..], sep)
    else
      var rest := Split(s[1..], sep);
      [[s[0]] + rest[0]] + rest[1..]
  }

  /** No piece of a split contains the separator. */
  lemma {:induction false} SplitSepFree(s: string, sep: char)
    ensures forall k :: 0 <= k < |Split(s, sep)| ==> sep !in Split(s, sep)[k]
    decreases |s|
  {
    if s != [] {
      SplitSepFree(s[1..], sep);
      var rest := Split(s[1..], sep);
      if s[0] != sep {
        assert sep !in rest[0];
        assert sep !in [s[0]] + rest[0];
      }
    }
  }

  /** `pieces.join(sep)`. */
  function Join(pieces: seq<string>, sep: string): string {
    if |pieces| == 0 then ""
    else if |pieces| == 1 then pieces[0]
    else pieces[0] + sep + Join(pieces[1..], sep)
  }

  /** Joining what `split` cut gives back the original string. */
  lemma {:induction false} JoinSplit(s: string, sep: char)
    ensures Join(Split(s, sep), [sep]) == s
  {
    if s == [] {
    } else if s[0] == sep {
      JoinSplit(s[1..], sep);
      var rest := Split(s[1..], sep);
      assert Split(s, sep) == [""] + rest;
      assert ([""] + rest)[1..] == rest;
    } else {
      JoinSplit(s[1..], sep);
      var rest := Split(s[1..], sep);
      var r := [[s[0]] + rest[0]] + rest[1..];
      assert Split(s, sep) == r;
      if |rest| == 1 {
        assert Join(r, [sep]) == [s[0]] + rest[0];
        assert Join(rest, [sep]) == rest[0];
      } else {
        assert r[1..] == rest[1..];
        assert Join(rest, [sep]) == rest[0] + [sep] + Join(rest[1..], [sep]);
        assert Join(r, [sep]) == [s[0]] + rest[0] + [sep] + Join(rest[1..], [sep]);
      }
      assert s == [s[0]] + s[1..];
    }
  }

  /** The text after the last `sep` (the whole string when there is none): `s.rsplit(sep).next()`. */
  function LastPiece(s: string, sep: char): (r: string)
    ensures sep !in r
    ensures |r| <= |s| && r == s[|s| - |r|..]
    ensures |r| < |s| ==> s[|s| - |r| - 1] == sep
  {
    if s == [] then []
    else if s[|s| - 1] == sep then []
    else LastPiece(s[..|s| - 1], sep) + [s[|s| - 1]]
  }

  /** Appending a character either ends the last piece (a `sep`) or extends it. */
  lemma LastPieceSnoc(s: string, c: char, sep: char)
    ensures LastPiece(s + [c], sep) == if c == sep then [] else LastPiece(s, sep) + [c]
  {
    assert (s + [c])[..|s|] == s;
  }

  /** The pieces of `s + [c]`: a `sep` opens a new empty piece, any other character extends the last one. */
  function PushLast(pieces: seq<string>, c: char, sep: char): (r: seq<string>)
    requires |pieces| >= 1
    ensures |r| >= 1
  {
    if c == sep then pieces + [""]
    else pieces[..|pieces| - 1] + [pieces[|pieces| - 1] + [c]]
  }

  lemma PushLastOfEmptyFirst(pieces: seq<string>, c: char, sep: char)
    requires |pieces| >= 1
    ensures PushLast([""] + pieces, c, sep) == [""] + PushLast(pieces, c, sep)
  {
    if c != sep {
      assert ([""] + pieces)[..|pieces|] == [""] + pieces[..|pieces| - 1];
    }
  }

  lemma PushLastOfExtendedFirst(a: char, rest: seq<string>, c: char, sep: char)
    requires |rest| >= 1
    ensures var p := PushLast(rest, c, sep);
      PushLast([[a] + rest[0]] + rest[1..], c, sep) == [[a] + p[0]] + p[1..]
  {
    var p := PushLast(rest, c, sep);
    var q := [[a] + rest[0]] + rest[1..];
    if c == sep {
      assert p[1..] == rest[1..] + [""];
    } else if |rest| == 1 {
      assert [a] + rest[0] + [c] == [a] + (rest[0] + [c]);
    } else {
      assert q[..|q| - 1] == [[a] + rest[0]] + rest[1..|rest| - 1];
      assert p[1..] == rest[1..|rest| - 1] + [rest[|rest| - 1] + [c]];
    }
  }

  /** Splitting `s + [c]` is splitting `s` and pushing `c` onto the pieces. */
  lemma {:induction false} SplitSnoc(s: string, c: char, sep: char)
    ensures Split(s + [c], sep) == PushLast(Split(s, sep), c, sep)
    decreases |s|
  {
    if s == [] {
      assert s + [c] == [c] && [c][1..] == [];
      var empty := Split([c][1..], sep);
      assert empty == [""];
      if c != sep {
        assert Split([c], sep) == [[c] + empty[0]] + empty[1..];
        assert [c] + empty[0] == [c];
      }
    } else {
      var t := s[1..];
      assert (s + [c])[1..] == t + [c];
      SplitSnoc(t, c, sep);
      if s[0] == sep {
        PushLastOfEmptyFirst(Split(t, sep), c, sep);
      } else {
        PushLastOfExtendedFirst(s[0], Split(t, sep), c, sep);
      }
    }
  }

  /** `rsplit(sep).next()` is the last piece of `split(sep)`. */
  lemma {:induction false} LastPieceIsLastSplit(s: string, sep: char)
    ensures LastPiece(s, sep) == Split(s, sep)[|Split(s, sep)| - 1]
    decreases |s|
  {
    if s != [] {
      var init, c := s[..|s| - 1], s[|s| - 1];
      assert s == init + [c];
      LastPieceIsLastSplit(init, sep);
      SplitSnoc(init, c, sep);
      LastPieceSnoc(init, c, sep);
    }
  }

  lemma LastPieceNoSep(s: string, sep: char)
    requires sep !in s
    ensures LastPiece(s, sep) == s
  {
    LastPieceUnique(s, sep, s);
  }

  /** The last piece is the only sep-free suffix that is the whole string or follows a `sep`. */
  lemma {:induction false} LastPieceUnique(s: string, sep: char, r: string)
    requires sep !in r
    requires |r| <= |s| && r == s[|s| - |r|..]
    requires |r| < |s| ==> s[|s| - |r| - 1] == sep
    ensures r == LastPiece(s, sep)
  {
    if r != [] {
      var n := |s|;
      assert s[n - 1] == r[|r| - 1];
      assert r[..|r| - 1] == s[..n - 1][n - 1 - (|r| - 1)..];
      LastPieceUnique(s[..n - 1], sep, r[..|r| - 1]);
    }
  }

  function DigitChar(d: nat): (c: char)
    requires d < 10
    ensures '0' <= c <= '9'
  {
    ['0', '1', '2', '3', '4', '5', '6', '7', '8', '9'][d]
  }

  /** Decimal text of a natural number, as `format!("{}", n)` writes a `usize`. */
  function NatToString(n: nat): (r: string)
    ensures |r| >= 1
    ensures forall k :: 0 <= k < |r| ==> '0' <= r[k] <= '9'
    ensures n > 0 ==> r[0] != '0'
    decreases n
  {
    if n < 10 then [DigitChar(n)] else NatToString(n / 10) + [DigitChar(n % 10)]
  }

  function DigitValue(c: char): nat
    requires '0' <= c <= '9'
  {
    c as int - '0' as int
  }

  /** Reads back a run of decimal digits. */
  function DecimalValue(s: string): nat
    requires forall k :: 0 <= k < |s| ==> '0' <= s[k] <= '9'
  {
    if s == [] then 0 else 10 * DecimalValue(s[..|s| - 1]) + DigitValue(s[|s| - 1])
  }

  /** The decimal text reads back as the number it was written from. */
  lemma {:induction false} DecimalRoundTrip(n: nat)
    ensures DecimalValue(NatToString(n)) == n
    decreases n
  {
    if n < 10 {
      DigitRoundTrip(n);
    } else {
      DecimalRoundTrip(n / 10);
      DigitRoundTrip(n % 10);
      var s := NatToString(n);
      assert s[..|s| - 1] == NatToString(n / 10);
      assert DecimalValue(s) == 10 * (n / 10) + n % 10;
    }
  }

  lemma DigitRoundTrip(d: nat)
    requires d < 10
    ensures DigitValue(DigitChar(d)) == d
  {
  }

  /** Every piece appears, unchanged, inside the joined text. */
  lemma {:induction false} JoinContainsPiece(pieces: seq<string>, sep: string, i: nat)
    requires i < |pieces|
    ensures exists pre, post :: Join(pieces, sep) == pre + pieces[i] + post
  {
    if |pieces| == 1 {
      assert Join(pieces, sep) == "" + pieces[0] + "";
    } else if i == 0 {
      assert Join(pieces, sep) == "" + pieces[0] + (sep + Join(pieces[1..], sep));
    } else {
      JoinContainsPiece(pieces[1..], sep, i - 1);
      var pre, post :| Join(pieces[1..], sep) == pre + pieces[1..][i - 1] + post;
      assert Join(pieces, sep) == (pieces[0] + sep + pre) + pieces[i] + post;
    }
  }
}
