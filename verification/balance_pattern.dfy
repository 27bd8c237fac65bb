/**
 The balance pattern `(\d{2}/\d{2}/\d{4})\s*([-]?\$?[\d,]+\.\d{2})` applied at one
 position of a page's text.

 The module gives two readings of the pattern: a declarative one (`IsHit`: the text at
 a position is a date, then white space, then an amount) and the deterministic scanner
 `MatchAt` that stands in for the regular-expression engine. `MatchAtIff` proves they
 agree. Character classes are restricted to ASCII.
 */
module BalancePattern {
  import opened Wrappers

  /** `\d`, restricted to the ASCII digits. */
  predicate IsDigit(c: char) {
    '0' <= c <= '9'
  }

  /** `\s`, restricted to ASCII: tab to carriage return, the four separators 0x1C-0x1F, space. */
  predicate IsSpace(c: char) {
    var n := c as int;
    n == 32 || 9 <= n <= 13 || 28 <= n <= 31
  }

  /** `[\d,]`: a digit or a thousands separator. */
  predicate IsGroupChar(c: char) {
    IsDigit(c) || c == ','
  }

  /** Every character of `s` satisfies `p`. */
  predicate All(s: string, p: char -> bool) {
    forall k :: 0 <= k < |s| ==> p(s[k])
  }

  /** `\d{2}/\d{2}/\d{4}`: ten characters, no calendar check. */
  predicate IsDate(s: string) {
    && |s| == 10
    && IsDigit(s[0]) && IsDigit(s[1]) && s[2] == '/'
    && IsDigit(s[3]) && IsDigit(s[4]) && s[5] == '/'
    && IsDigit(s[6]) && IsDigit(s[7]) && IsDigit(s[8]) && IsDigit(s[9])
  }

  /**
   `[-]?\$?[\d,]+\.\d{2}` with the two optional parts decided: `minus` says whether
   the leading `-` is present, `dollar` whether the `$` is.
   */
  predicate AmountShape(a: string, minus: bool, dollar: bool) {
    var p := (if minus then 1 else 0) + (if dollar then 1 else 0);
    && p + 4 <= |a|
    && (minus ==> a[0] == '-')
    && (dollar ==> a[p - 1] == '$')
    && All(a[p .. |a| - 3], IsGroupChar)
    && a[|a| - 3] == '.'
    && IsDigit(a[|a| - 2]) && IsDigit(a[|a| - 1])
  }

  /** `[-]?\$?[\d,]+\.\d{2}`: one of the four ways of filling the optional parts. */
  predicate IsAmount(a: string) {
    || AmountShape(a, false, false)
    || AmountShape(a, false, true)
    || AmountShape(a, true, false)
    || AmountShape(a, true, true)
  }

  /**
   One occurrence of the whole pattern in a text: at `start` stand the date (group 1),
   the white space between the tokens, and the amount (group 2).
   */
  datatype Hit = Hit(start: nat, date: string, spaces: string, amount: string) {
    /** The position just after the occurrence. */
    function End(): nat {
      start + |date| + |spaces| + |amount|
    }
  }

  /** `h` really occurs in `t`: the text it covers is its three parts, each of the right form. */
  predicate IsHit(t: string, h: Hit) {
    && h.End() <= |t|
    && t[h.start .. h.End()] == h.date + h.spaces + h.amount
    && IsDate(h.date)
    && All(h.spaces, IsSpace)
    && IsAmount(h.amount)
  }

  /** The end of the longest run of characters satisfying `p` that starts at `k`. */
  function SkipWhile(t: string, k: nat, p: char -> bool): (r: nat)
    requires k <= |t|
    ensures k <= r <= |t|
    ensures All(t[k .. r], p)
    ensures r == |t| || !p(t[r])
    decreases |t| - k
  {
    if k < |t| && p(t[k]) then SkipWhile(t, k + 1, p) else k
  }

  /**
   The end of the amount token `[-]?\$?[\d,]+\.\d{2}` that starts at `w`, if one does.
   The optional sign and currency symbol are taken when present, the digit group is
   taken as far as it goes, and then a point and two digits must follow.
   */
  function AmountEnd(t: string, w: nat): (r: Option<nat>)
    requires w <= |t|
    ensures r.Some? ==> w + 4 <= r.value <= |t| && IsAmount(t[w .. r.value])
  {
    var s := if w < |t| && t[w] == '-' then w + 1 else w;
    var c := if s < |t| && t[s] == '$' then s + 1 else s;
    var b := SkipWhile(t, c, IsGroupChar);
    if c < b && b + 3 <= |t| && t[b] == '.' && IsDigit(t[b + 1]) && IsDigit(t[b + 2]) then
      var a := t[w .. b + 3];
      assert AmountShape(a, s == w + 1, c == s + 1) by {
        SliceOfSlice(t, w, b + 3, c - w, b - w);
        assert a[0] == t[w] && a[s - w] == t[s];
      }
      Some(b + 3)
    else None
  }

  /**
   The match of the pattern that starts exactly at `i`, if any. Each quantifier of the
   pattern is greedy and the token after it can never begin with a character the
   quantifier consumed, so the regular-expression engine never has to backtrack and
   this single pass finds what it finds.
   */
  function MatchAt(t: string, i: nat): (r: Option<Hit>)
    ensures r.Some? ==> r.value.start == i && IsHit(t, r.value)
    ensures r.Some? ==> i + 14 <= r.value.End()
  {
    if i + 10 > |t| || !IsDate(t[i .. i + 10]) then None
    else
      var w := SkipWhile(t, i + 10, IsSpace);
      match AmountEnd(t, w)
      case None => None
      case Some(e) =>
        assert t[i .. e] == t[i .. i + 10] + t[i + 10 .. w] + t[w .. e];
        Some(Hit(i, t[i .. i + 10], t[i + 10 .. w], t[w .. e]))
  }

  /** A slice of a slice is a slice of the original sequence. */
  lemma SliceOfSlice(t: string, i: nat, j: nat, k: nat, l: nat)
    requires i <= j <= |t| && k <= l <= j - i
    ensures t[i .. j][k .. l] == t[i + k .. i + l]
  {
    forall n | 0 <= n < l - k
      ensures t[i .. j][k .. l][n] == t[i + k .. i + l][n]
    {
    }
  }

  /** A run that `p` accepts throughout and that stops at a character `p` rejects is the one `SkipWhile` finds. */
  lemma SkipWhileUnique(t: string, k: nat, m: nat, p: char -> bool)
    requires k <= m <= |t|
    requires All(t[k .. m], p)
    requires m == |t| || !p(t[m])
    ensures SkipWhile(t, k, p) == m
  {
  }

  /** Every amount token in the text is found, with its full length, by `AmountEnd`. */
  lemma AmountEndComplete(t: string, w: nat, e: nat)
    requires w <= e <= |t|
    requires IsAmount(t[w .. e])
    ensures AmountEnd(t, w) == Some(e)
  {
    if AmountShape(t[w .. e], false, false) {
      AmountEndOfShape(t, w, e, false, false);
    } else if AmountShape(t[w .. e], false, true) {
      AmountEndOfShape(t, w, e, false, true);
    } else if AmountShape(t[w .. e], true, false) {
      AmountEndOfShape(t, w, e, true, false);
    } else {
      AmountEndOfShape(t, w, e, true, true);
    }
  }

  /** `AmountEndComplete` for one choice of the optional sign and currency symbol. */
  lemma AmountEndOfShape(t: string, w: nat, e: nat, minus: bool, dollar: bool)
    requires w <= e <= |t|
    requires AmountShape(t[w .. e], minus, dollar)
    ensures AmountEnd(t, w) == Some(e)
  {
    var a := t[w .. e];
    var c := AmountPrefix(t, w, e, minus, dollar);
    SliceOfSlice(t, w, e, c - w, |a| - 3);
    SkipWhileUnique(t, c, e - 3, IsGroupChar);
    assert t[e - 3] == a[|a| - 3];
  }

  /** The optional sign and currency symbol of an amount of the given shape end where its digit group begins. */
  lemma AmountPrefix(t: string, w: nat, e: nat, minus: bool, dollar: bool) returns (c: nat)
    requires w <= e <= |t|
    requires AmountShape(t[w .. e], minus, dollar)
    ensures c == w + (if minus then 1 else 0) + (if dollar then 1 else 0)
    ensures c == (var s := if w < |t| && t[w] == '-' then w + 1 else w;
                  if s < |t| && t[s] == '$' then s + 1 else s)
  {
    var a := t[w .. e];
    var p := (if minus then 1 else 0) + (if dollar then 1 else 0);
    SliceOfSlice(t, w, e, p, |a| - 3);
    assert IsGroupChar(t[w + p]) by {
      assert t[w + p] == a[p .. |a| - 3][0];
    }
    assert a[0] == t[w];
    if dollar {
      assert a[p - 1] == t[w + p - 1];
    }
    c := w + p;
  }


  /**
   The scanner and the declarative reading agree: `MatchAt` reports `h` at `i` exactly
   when `h` is an occurrence of the pattern starting at `i`. In particular at most one
   occurrence starts at any position.
   */
  lemma MatchAtIff(t: string, i: nat, h: Hit)
    ensures MatchAt(t, i) == Some(h) <==> h.start == i && IsHit(t, h)
  {
    if h.start == i && IsHit(t, h) {
      MatchAtComplete(t, h);
    }
  }

  /** Every occurrence of the pattern is found by the scanner at its start. */
  lemma MatchAtComplete(t: string, h: Hit)
    requires IsHit(t, h)
    ensures MatchAt(t, h.start) == Some(h)
  {
    var i := h.start;
    var w := i + 10 + |h.spaces|;
    var e := h.End();
    HitParts(t, h);
    AmountEndComplete(t, w, e);
    AmountStart(h.amount);
    assert t[w] == t[w .. e][0];
    SkipWhileUnique(t, i + 10, w, IsSpace);
  }

  /** The text an occurrence covers splits into its date, its spaces and its amount. */
  lemma HitParts(t: string, h: Hit)
    requires IsHit(t, h)
    ensures t[h.start .. h.start + 10] == h.date
    ensures t[h.start + 10 .. h.start + 10 + |h.spaces|] == h.spaces
    ensures t[h.start + 10 + |h.spaces| .. h.End()] == h.amount
  {
    var i, e := h.start, h.End();
    var w := i + 10 + |h.spaces|;
    var whole := h.date + h.spaces + h.amount;
    SliceOfSlice(t, i, e, 0, 10);
    SliceOfSlice(t, i, e, 10, w - i);
    SliceOfSlice(t, i, e, w - i, e - i);
    assert whole[.. 10] == h.date;
    assert whole[10 .. w - i] == h.spaces;
    assert whole[w - i ..] == h.amount;
  }

  /** An amount starts with '-', '$' or a digit group character, never with white space. */
  lemma AmountStart(a: string)
    requires IsAmount(a)
    ensures |a| > 0 && !IsSpace(a[0])
  {
    if AmountShape(a, false, false) {
      assert a[0] == a[0 .. |a| - 3][0];
    }
  }

  /** An occurrence is at least fourteen characters long and has its slashes two and five places after its start. */
  lemma HitBounds(t: string, h: Hit)
    requires IsHit(t, h)
    ensures h.start + 14 <= h.End() <= |t|
    ensures t[h.start + 2] == '/' && t[h.start + 5] == '/'
  {
    var whole := h.date + h.spaces + h.amount;
    assert t[h.start + 2] == t[h.start .. h.End()][2] == whole[2];
    assert t[h.start + 5] == t[h.start .. h.End()][5] == whole[5];
  }
}
