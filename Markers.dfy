/**
 * The two marker patterns of the regulation chunker,
 * `第(?:[零一二三四五六七八九十百千万]*\d*)条` (article) and the same with
 * `章` (chapter), as hand-written scanners, together with the proof that
 * the scanner's matches are exactly the leftmost-first, non-overlapping
 * matches `find_iter` reports.
 */
module Markers {

  /** Which of the two patterns: an article marker ends in 条, a chapter marker in 章. */
  datatype Kind = ArticleKind | ChapterKind

  function Suffix(kind: Kind): char {
    match kind
    case ArticleKind => '条'
    case ChapterKind => '章'
  }

  /** The character class `[零一二三四五六七八九十百千万]`. */
  predicate IsNumeral(c: char) {
    || c == '零' || c == '一' || c == '二' || c == '三' || c == '四' || c == '五' || c == '六'
    || c == '七' || c == '八' || c == '九' || c == '十' || c == '百' || c == '千' || c == '万'
  }

  /** `\d`, restricted to the ASCII and the fullwidth decimal digits. */
  predicate IsDigit(c: char) {
    ('0' <= c <= '9') || ('\U{FF10}' <= c <= '\U{FF19}')
  }

  /** The end of the longest run of numerals starting at `i`. */
  function NumeralEnd(s: string, i: nat): (e: nat)
    requires i <= |s|
    ensures i <= e <= |s|
    ensures forall k :: i <= k < e ==> IsNumeral(s[k])
    ensures e < |s| ==> !IsNumeral(s[e])
    decreases |s| - i
  {
    if i < |s| && IsNumeral(s[i]) then NumeralEnd(s, i + 1) else i
  }

  /** The end of the longest run of digits starting at `i`. */
  function DigitEnd(s: string, i: nat): (e: nat)
    requires i <= |s|
    ensures i <= e <= |s|
    ensures forall k :: i <= k < e ==> IsDigit(s[k])
    ensures e < |s| ==> !IsDigit(s[e])
    decreases |s| - i
  {
    if i < |s| && IsDigit(s[i]) then DigitEnd(s, i + 1) else i
  }

  /** Where the suffix has to stand for a match starting at `p`. */
  function SuffixPos(s: string, p: nat): (e: nat)
    requires p < |s|
    ensures p < e <= |s|
  {
    DigitEnd(s, NumeralEnd(s, p + 1))
  }

  /** The scanner: a marker of `kind` starts at `p`. */
  predicate MarkerAt(s: string, p: nat, kind: Kind) {
    p < |s| && s[p] == '第' && SuffixPos(s, p) < |s| && s[SuffixPos(s, p)] == Suffix(kind)
  }

  /** One past the last character of the marker starting at `p`. */
  function MarkerEnd(s: string, p: nat, kind: Kind): (e: nat)
    requires MarkerAt(s, p, kind)
    ensures p + 2 <= e <= |s|
  {
    SuffixPos(s, p) + 1
  }

  /** `t[1..m]` are numerals and `t[m..|t| - 1]` are digits. */
  predicate RunsSplitAt(t: string, m: nat) {
    1 <= m <= |t| - 1 && (forall k :: 1 <= k < m ==> IsNumeral(t[k]))
      && (forall k :: m <= k < |t| - 1 ==> IsDigit(t[k]))
  }

  /** The pattern's language: 第, numerals, digits, then the suffix. */
  ghost predicate InPattern(t: string, kind: Kind) {
    |t| >= 2 && t[0] == '第' && t[|t| - 1] == Suffix(kind) && exists m :: RunsSplitAt(t, m)
  }

  /** Text in the pattern's language starting at `p` is exactly what the scanner finds there. */
  lemma PatternMatchIsMarker(s: string, p: nat, q: nat, kind: Kind)
    requires p <= q <= |s| && InPattern(s[p..q], kind)
    ensures MarkerAt(s, p, kind) && q == MarkerEnd(s, p, kind)
  {
    var m :| RunsSplitAt(s[p..q], m);
    RunsInText(s, p, q, m);
    NumeralRunIsMaximal(s, p + 1, p + m, q - 1);
    DigitRunIsMaximal(s, p + m, q - 1);
    assert SuffixPos(s, p) == q - 1;
  }

  /** The runs of a slice, read back in the whole text. */
  lemma RunsInText(s: string, p: nat, q: nat, m: nat)
    requires p <= q <= |s| && RunsSplitAt(s[p..q], m)
    ensures forall k :: p + 1 <= k < p + m ==> IsNumeral(s[k])
    ensures forall k :: p + m <= k < q - 1 ==> IsDigit(s[k])
    ensures s[p] == s[p..q][0] && s[q - 1] == s[p..q][q - 1 - p]
  {
    var t := s[p..q];
    forall k | p + 1 <= k < p + m
      ensures IsNumeral(s[k])
    {
      assert s[k] == t[k - p];
    }
    forall k | p + m <= k < q - 1
      ensures IsDigit(s[k])
    {
      assert s[k] == t[k - p];
    }
  }

  /** What the scanner finds is in the pattern's language. */
  lemma MarkerIsPatternMatch(s: string, p: nat, kind: Kind)
    requires MarkerAt(s, p, kind)
    ensures InPattern(s[p..MarkerEnd(s, p, kind)], kind)
  {
    var t := s[p..MarkerEnd(s, p, kind)];
    var m := NumeralEnd(s, p + 1) - p;
    assert RunsSplitAt(t, m);
  }

  /** Numerals up to `n`, then digits up to a non-digit at `e`: the numeral run ends exactly at `n`. */
  lemma NumeralRunIsMaximal(s: string, i: nat, n: nat, e: nat)
    requires i <= n <= e < |s|
    requires forall k :: i <= k < n ==> IsNumeral(s[k])
    requires forall k :: n <= k < e ==> IsDigit(s[k])
    requires !IsNumeral(s[e]) && !IsDigit(s[e])
    ensures NumeralEnd(s, i) == n
    decreases n - i
  {
    if i < n {
      NumeralRunIsMaximal(s, i + 1, n, e);
    } else {
      assert !IsNumeral(s[i]) by {
        if i < e { assert IsDigit(s[i]); }
      }
    }
  }

  lemma DigitRunIsMaximal(s: string, i: nat, e: nat)
    requires i <= e < |s|
    requires forall k :: i <= k < e ==> IsDigit(s[k])
    requires !IsDigit(s[e])
    ensures DigitEnd(s, i) == e
    decreases e - i
  {
    if i < e {
      DigitRunIsMaximal(s, i + 1, e);
    }
  }

  /** No marker can start inside another: the characters after 第 are never 第. */
  lemma NoMarkerInside(s: string, p: nat, kind: Kind, q: nat, other: Kind)
    requires MarkerAt(s, p, kind) && p < q < MarkerEnd(s, p, kind)
    ensures !MarkerAt(s, q, other)
  {
    var n := NumeralEnd(s, p + 1);
    if q < n {
      assert IsNumeral(s[q]);
    } else if q < SuffixPos(s, p) {
      assert IsDigit(s[q]);
    }
  }

  /** An article and a chapter marker never start at the same place. */
  lemma KindsNeverShareStart(s: string, p: nat)
    ensures !(MarkerAt(s, p, ArticleKind) && MarkerAt(s, p, ChapterKind))
  {
  }

  /**
   * `find_iter` from position `from`: leftmost-first and non-overlapping,
   * resuming after each match.
   */
  function Scan(s: string, from: nat, kind: Kind): (r: seq<nat>)
    ensures forall k :: 0 <= k < |r| ==> from <= r[k] && MarkerAt(s, r[k], kind)
    ensures forall j, k :: 0 <= j < k < |r| ==> r[j] < r[k]
    decreases |s| - from
  {
    if from >= |s| then []
    else if MarkerAt(s, from, kind) then [from] + Scan(s, MarkerEnd(s, from, kind), kind)
    else Scan(s, from + 1, kind)
  }

  /** Every marker at or after `from` is reported. */
  lemma {:induction false} ScanComplete(s: string, from: nat, kind: Kind, p: nat)
    requires from <= p && MarkerAt(s, p, kind)
    ensures p in Scan(s, from, kind)
    decreases |s| - from
  {
    if from < |s| {
      if MarkerAt(s, from, kind) {
        if p != from {
          if p < MarkerEnd(s, from, kind) {
            NoMarkerInside(s, from, kind, p, kind);
          }
          ScanComplete(s, MarkerEnd(s, from, kind), kind, p);
        }
      } else {
        ScanComplete(s, from + 1, kind, p);
      }
    }
  }

  /** The offsets `find_iter` reports for the whole text. */
  function Matches(s: string, kind: Kind): seq<nat> {
    Scan(s, 0, kind)
  }

  /** The offsets reported are exactly the marker starts, strictly ascending and inside the text. */
  lemma MatchesAreMarkers(s: string, kind: Kind, p: nat)
    ensures p in Matches(s, kind) <==> MarkerAt(s, p, kind)
    ensures forall k :: 0 <= k < |Matches(s, kind)| ==> Matches(s, kind)[k] < |s|
    ensures forall j, k :: 0 <= j < k < |Matches(s, kind)| ==> Matches(s, kind)[j] < Matches(s, kind)[k]
  {
    if MarkerAt(s, p, kind) {
      ScanComplete(s, 0, kind, p);
    }
  }
}
