/**
 Worked inputs for the fetcher: pages whose matches are known, the `.pdf` filter on
 some names, and a small directory processed in batch.
 */
module Scenarios {
  import opened Wrappers
  import opened BalancePattern
  import opened PageMatcher
  import opened DailyBalanceFetcher

  /** No occurrence starts where fewer than fourteen characters remain. */
  lemma NoHitNearEnd(t: string, a: nat)
    requires a + 14 > |t|
    ensures NoHitStartsIn(t, a, |t|)
  {
    forall h | IsHit(t, h) ensures h.start + 14 <= |t| {
      HitBounds(t, h);
    }
  }

  /** No occurrence starts two places before a stretch of text without a slash. */
  lemma NoHitWithoutSlash(t: string, a: nat, b: nat)
    requires a + 2 <= b <= |t|
    requires '/' !in t[a + 2 .. b]
    ensures NoHitStartsIn(t, a, b - 2)
  {
    forall h | IsHit(t, h) && a <= h.start ensures b - 2 <= h.start {
      HitBounds(t, h);
    }
  }

  /**
   A page that opens with an occurrence and has fewer than fourteen characters after
   it yields exactly that occurrence's date and amount.
   */
  lemma LeadingMatch(t: string, date: string, spaces: string, amount: string, rest: string)
    requires t == date + spaces + amount + rest
    requires IsDate(date) && All(spaces, IsSpace) && IsAmount(amount)
    requires |rest| < 14
    ensures FindAll(t) == [Pair(date, amount)]
  {
    var h := Hit(0, date, spaces, amount);
    assert t[0 .. h.End()] == date + spaces + amount;
    MatchAtComplete(t, h);
    NoHitNearEnd(t, h.End());
    ScanSkips(t, h.End(), |t|);
  }

  /** White space between the date and the amount is optional. */
  lemma NoSpaceNeeded()
    ensures FindAll("03/01/2024-$50.00") == [Pair("03/01/2024", "-$50.00")]
  {
    assert AmountShape("-$50.00", true, true);
    LeadingMatch("03/01/2024-$50.00", "03/01/2024", "", "-$50.00", "");
  }

  /** The amount stops after two decimals: a third decimal is left behind. */
  lemma ExtraDecimalLeftBehind()
    ensures FindAll("12/31/2023 1234.567") == [Pair("12/31/2023", "1234.56")]
  {
    assert AmountShape("1234.56", false, false);
    LeadingMatch("12/31/2023 1234.567", "12/31/2023", " ", "1234.56", "7");
  }

  /** The date is not checked against the calendar, nor the digit groups against the thousands convention. */
  lemma NothingValidated()
    ensures FindAll("99/99/9999\t1,2,3.45") == [Pair("99/99/9999", "1,2,3.45")]
  {
    assert AmountShape("1,2,3.45", false, false);
    LeadingMatch("99/99/9999\t1,2,3.45", "99/99/9999", "\t", "1,2,3.45", "");
  }

  /** A statement page whose first date is not followed by an amount. */
  const StatementPage: string :=
    "Statement date " + "01/15/2024" + " balance due " + "01/15/2024" + " $1,234.56" + " thank you"

  /** Nothing before the first date. */
  lemma StatementUpToFirstDate()
    ensures Scan(StatementPage, 0) == Scan(StatementPage, 15)
  {
    NoHitWithoutSlash(StatementPage, 0, 17);
    ScanSkips(StatementPage, 0, 15);
  }

  /** The first date is followed by a word, not by an amount. */
  lemma StatementFirstDate()
    ensures Scan(StatementPage, 15) == Scan(StatementPage, 16)
  {
    var t := StatementPage;
    assert t[25] == ' ' && t[26] == 'b';
    SkipWhileUnique(t, 25, 26, IsSpace);
    SkipWhileUnique(t, 26, 26, IsGroupChar);
    assert AmountEnd(t, 26) == None;
    assert MatchAt(t, 15) == None;
  }

  /** The slash after the first date's day is not followed by a date. */
  lemma StatementAfterFirstDate()
    ensures Scan(StatementPage, 16) == Scan(StatementPage, 19)
  {
    var t := StatementPage;
    NoHitWithoutSlash(t, 16, 20);
    ScanSkips(t, 16, 18);
    assert MatchAt(t, 18) == None;
  }

  /** Nothing between the first date and the second one. */
  lemma StatementBetweenDates()
    ensures Scan(StatementPage, 19) == Scan(StatementPage, 38)
  {
    NoHitWithoutSlash(StatementPage, 19, 40);
    ScanSkips(StatementPage, 19, 38);
  }

  /** The amount after the second date. */
  lemma StatementSecondAmount()
    ensures AmountEnd(StatementPage, 49) == Some(58)
  {
    var t := StatementPage;
    assert t[49] == '$' && t[55] == '.';
    SkipWhileUnique(t, 50, 55, IsGroupChar);
  }

  /** The second date is followed by an amount. */
  lemma StatementSecondDate()
    ensures MatchAt(StatementPage, 38) == Some(Hit(38, "01/15/2024", " ", "$1,234.56"))
  {
    var t := StatementPage;
    assert t[38 .. 48] == "01/15/2024" && t[48 .. 49] == " " && t[49 .. 58] == "$1,234.56";
    SkipWhileUnique(t, 48, 49, IsSpace);
    StatementSecondAmount();
  }

  /** Nothing after the second amount. */
  lemma StatementTail()
    ensures Scan(StatementPage, 58) == []
  {
    NoHitNearEnd(StatementPage, 58);
    ScanSkips(StatementPage, 58, |StatementPage|);
  }

  /** Only the date that is directly followed by an amount is recovered. */
  lemma StatementExample()
    ensures FindAll(StatementPage) == [Pair("01/15/2024", "$1,234.56")]
  {
    StatementUpToFirstDate();
    StatementFirstDate();
    StatementAfterFirstDate();
    StatementBetweenDates();
    StatementSecondDate();
    StatementTail();
  }

  /** The suffix test is literal and case-sensitive. */
  lemma PdfSuffix()
    ensures IsPdfName("statement.pdf") && IsPdfName(".pdf")
    ensures !IsPdfName("statement.PDF") && !IsPdfName("statement.pdf.txt") && !IsPdfName("pdf")
  {
    assert "statement.PDF"[9 ..] == ".PDF";
    assert "statement.pdf.txt"[13 ..] == ".txt";
  }

  /** A listing of four entries gives each entry's rows in turn. */
  lemma BatchOfFour(w: string, x: string, y: string, z: string, folder: Folder)
    ensures BatchRecords([w, x, y, z], folder)
            == BatchRecords([w], folder) + BatchRecords([x], folder) + BatchRecords([y], folder) + BatchRecords([z], folder)
  {
    assert [w, x, y, z] == [w] + [x] + [y] + [z];
    BatchAppend([w] + [x] + [y], [z], folder);
    BatchAppend([w] + [x], [y], folder);
    BatchAppend([w], [x], folder);
  }

  /** A listed `.pdf` file yielding one pair contributes that pair, tagged with its name. */
  lemma ListedWithOnePair(folder: Folder, name: string, p1: Pair)
    requires IsPdfName(name)
    requires DocumentBalances(ReadDocument(folder, name)) == [p1]
    ensures BatchRecords([name], folder) == [Record(p1.date, p1.balance, name)]
  {
    BatchOfOne(name, folder);
  }

  /** A listed `.pdf` file yielding two pairs contributes both, in order, tagged with its name. */
  lemma ListedWithTwoPairs(folder: Folder, name: string, p1: Pair, p2: Pair)
    requires IsPdfName(name)
    requires DocumentBalances(ReadDocument(folder, name)) == [p1, p2]
    ensures BatchRecords([name], folder) == [Record(p1.date, p1.balance, name), Record(p2.date, p2.balance, name)]
  {
    BatchOfOne(name, folder);
  }

  /**
   A listing with an entry of another type, a statement A yielding one pair, an
   unreadable statement and a statement B yielding two: the other entry is skipped
   whatever it holds, the unreadable file contributes nothing, and A's row precedes
   B's rows.
   */
  lemma BatchExample(folder: Folder, other: string, a: string, broken: string, b: string, a1: Pair, b1: Pair, b2: Pair)
    requires !IsPdfName(other) && IsPdfName(a) && IsPdfName(b)
    requires broken !in folder
    requires DocumentBalances(ReadDocument(folder, a)) == [a1]
    requires DocumentBalances(ReadDocument(folder, b)) == [b1, b2]
    ensures BatchRecords([other, a, broken, b], folder)
            == [Record(a1.date, a1.balance, a), Record(b1.date, b1.balance, b), Record(b2.date, b2.balance, b)]
  {
    var ra := [Record(a1.date, a1.balance, a)];
    var rb := [Record(b1.date, b1.balance, b), Record(b2.date, b2.balance, b)];
    BatchOfOne(other, folder);
    ListedWithOnePair(folder, a, a1);
    BatchOfOne(broken, folder);
    ListedWithTwoPairs(folder, b, b1, b2);
    BatchOfFour(other, a, broken, b, folder);
    assert [] + ra + [] + rb == ra + rb;
  }
}
