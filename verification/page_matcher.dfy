/**
 `re.findall` of the balance pattern over one page's text: every occurrence, left to
 right, each search resuming where the previous match ended, reported as the pair of
 capture groups (date, amount).
 */
module PageMatcher {
  import opened Wrappers
  import opened BalancePattern

  /** One tuple that `findall` returns: the two capture groups of a match. */
  datatype Pair = Pair(date: string, balance: string)

  /**
   The matches found by searching `t` from `pos` on: try a match at the current
   position; on success report it and continue at its end, otherwise move one
   character on.
   */
  function Scan(t: string, pos: nat): (hits: seq<Hit>)
    requires pos <= |t|
    ensures forall k :: 0 <= k < |hits| ==> IsHit(t, hits[k]) && pos <= hits[k].start
    ensures forall k :: 0 <= k < |hits| - 1 ==> hits[k].End() <= hits[k + 1].start
    decreases |t| - pos
  {
    if pos == |t| then []
    else
      match MatchAt(t, pos)
      case Some(h) => [h] + Scan(t, h.End())
      case None => Scan(t, pos + 1)
  }

  /** The capture groups of each match, in order. */
  function Groups(hits: seq<Hit>): (pairs: seq<Pair>)
    ensures |pairs| == |hits|
    ensures forall k :: 0 <= k < |hits| ==> pairs[k].date == hits[k].date && pairs[k].balance == hits[k].amount
  {
    if hits == [] then [] else [Pair(hits[0].date, hits[0].amount)] + Groups(hits[1..])
  }

  /**
   `re.findall(pattern, t)`: the (date, amount) pairs of all non-overlapping matches,
   left to right. Every date is ten characters `dd/dd/dddd` and every amount has the
   shape `[-]?\$?[\d,]+\.\d{2}`.
   */
  function FindAll(t: string): (pairs: seq<Pair>)
    ensures forall k :: 0 <= k < |pairs| ==> IsDate(pairs[k].date) && IsAmount(pairs[k].balance)
  {
    Groups(Scan(t, 0))
  }

  /** No occurrence of the pattern starts at a position in [a, b). */
  ghost predicate NoHitStartsIn(t: string, a: nat, b: nat) {
    forall h :: IsHit(t, h) && a <= h.start ==> b <= h.start
  }

  /**
   The declarative meaning of searching from `pos`: the first reported match is the
   leftmost occurrence at or after `pos`, the rest are what searching from its end
   reports, and when nothing is reported no occurrence starts at or after `pos`.
   */
  ghost predicate IsFindAll(t: string, pos: nat, hits: seq<Hit>)
    decreases |hits|
  {
    if hits == [] then NoHitStartsIn(t, pos, |t|)
    else
      && pos <= hits[0].start
      && IsHit(t, hits[0])
      && NoHitStartsIn(t, pos, hits[0].start)
      && IsFindAll(t, hits[0].End(), hits[1..])
  }

  /** Positions where the scanner finds nothing can be skipped. */
  lemma {:induction false} ScanSkips(t: string, a: nat, b: nat)
    requires a <= b <= |t|
    requires NoHitStartsIn(t, a, b)
    ensures Scan(t, a) == Scan(t, b)
    decreases b - a
  {
    if a < b {
      ScanSkips(t, a + 1, b);
    }
  }

  /**
   The scanner and the declarative meaning agree, in both directions: `hits` is what
   searching from `pos` reports exactly when it is what `Scan` computes.
   */
  lemma ScanIff(t: string, pos: nat, hits: seq<Hit>)
    requires pos <= |t|
    ensures IsFindAll(t, pos, hits) <==> hits == Scan(t, pos)
  {
    ScanIsFindAll(t, pos);
    if IsFindAll(t, pos, hits) {
      FindAllIsScan(t, pos, hits);
    }
  }

  /** What `Scan` computes meets the declarative meaning. */
  lemma {:induction false} ScanIsFindAll(t: string, pos: nat)
    requires pos <= |t|
    ensures IsFindAll(t, pos, Scan(t, pos))
    decreases |t| - pos
  {
    if pos == |t| {
      assert NoHitStartsIn(t, pos, |t|) by {
        forall h | IsHit(t, h) && pos <= h.start ensures |t| <= h.start {
          MatchAtComplete(t, h);
        }
      }
    } else {
      match MatchAt(t, pos)
      case Some(h) =>
        ScanIsFindAll(t, h.End());
        assert Scan(t, pos)[1..] == Scan(t, h.End());
      case None =>
        ScanIsFindAll(t, pos + 1);
        forall g | IsHit(t, g) && pos <= g.start ensures pos + 1 <= g.start {
          MatchAtComplete(t, g);
        }
        NoHitWidens(t, pos, pos + 1, Scan(t, pos + 1));
    }
  }

  /** A result for `b` is a result for an earlier `a` when nothing starts in [a, b). */
  lemma NoHitWidens(t: string, a: nat, b: nat, hits: seq<Hit>)
    requires a <= b
    requires NoHitStartsIn(t, a, b)
    requires IsFindAll(t, b, hits)
    ensures IsFindAll(t, a, hits)
  {
  }

  /** Only `Scan`'s result meets the declarative meaning. */
  lemma {:induction false} FindAllIsScan(t: string, pos: nat, hits: seq<Hit>)
    requires pos <= |t|
    requires IsFindAll(t, pos, hits)
    ensures hits == Scan(t, pos)
    decreases |hits|
  {
    if hits == [] {
      ScanSkips(t, pos, |t|);
    } else {
      var h := hits[0];
      ScanSkips(t, pos, h.start);
      MatchAtComplete(t, h);
      assert h.start < |t|;
      FindAllIsScan(t, h.End(), hits[1..]);
    }
  }
}
