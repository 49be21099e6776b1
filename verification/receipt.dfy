/**
 * The text receipt (`utils/ReceiptPrinter.java`): a fixed 32-column layout of
 * header, sale info, two lines per item, totals and footer. The locale's
 * currency format, the date pattern and `BigDecimal.toString` are left as
 * parameters.
 */
module Receipt {
  import opened Wrappers
  import opened JavaTypes
  import opened Digits
  import opened Strings
  import opened Items
  import opened Transactions

  /** Paper width in characters. */
  const Width: nat := 32
  /** Longest product name printed unshortened. */
  const NameWidth: nat := 22

  const Divider: string := "================================"
  const ThinDivider: string := "--------------------------------"

  /**
   * `center`: left-pads with half the slack (rounded down); no right padding,
   * and text at least as wide as the field is returned as is.
   */
  function Center(text: string, width: nat): (r: string)
    ensures |r| >= |text|
    ensures |text| >= width ==> r == text
    ensures |text| < width ==>
      var pad := |r| - |text|;
      && r[pad..] == text
      && (forall i :: 0 <= i < pad ==> r[i] == ' ')
      && 2 * pad <= width - |text| <= 2 * pad + 1
  {
    if |text| >= width then text else Repeat(' ', (width - |text|) / 2) + text
  }

  /**
   * `rightAlign`: label, at least one space, value; the line fills the width
   * exactly when the two fit with a space between them.
   */
  function RightAlign(title: string, value: string, width: nat): (r: string)
    ensures |r| > |title| + |value|
    ensures r[..|title|] == title && r[|r| - |value|..] == value
    ensures |title| + |value| < width ==> |r| == width
    ensures |title| + |value| >= width ==> |r| == |title| + |value| + 1
    ensures forall i :: |title| <= i < |r| - |value| ==> r[i] == ' '
  {
    var space := width - |title| - |value|;
    title + Repeat(' ', if space < 1 then 1 else space) + value
  }

  /** `truncate`: text longer than the limit loses its tail to "..", ending exactly at the limit. */
  function Truncate(text: string, maxLength: nat): (r: string)
    requires |text| <= maxLength || maxLength >= 2
    ensures |text| <= maxLength ==> r == text
    ensures |text| > maxLength ==>
      |r| == maxLength && r == text[..maxLength - 2] + ".."
  {
    if |text| <= maxLength then text else text[..maxLength - 2] + ".."
  }

  /** Truncation is idempotent, and nothing truncated is longer than the limit. */
  lemma TruncateIdempotent(text: string, maxLength: nat)
    requires maxLength >= 2
    ensures |Truncate(text, maxLength)| <= maxLength
    ensures Truncate(Truncate(text, maxLength), maxLength) == Truncate(text, maxLength)
  {
  }

  /**
   * `String.format("%05d", id)`: zero-padded to five characters including
   * the sign, never cut; a negative id keeps its minus in front of the zeros.
   */
  function FormatId5(id: int): (r: string)
    ensures |r| >= 5
    ensures id >= 0 <==> r[0] != '-'
  {
    if id >= 0 then ZeroPad(NatToString(id), 5) else "-" + ZeroPad(NatToString(-id), 4)
  }

  /** The printed sale number reads back as the id; five characters exactly up to 99999. */
  lemma FormatId5RoundTrip(id: int)
    ensures id >= 0 ==> AllDigits(FormatId5(id)) && DigitsValue(FormatId5(id)) == id
    ensures id < 0 ==> AllDigits(FormatId5(id)[1..]) && DigitsValue(FormatId5(id)[1..]) == -id
    ensures 0 <= id <= 99999 ==> |FormatId5(id)| == 5
  {
    if id >= 0 {
      PaddedValue(id, 5);
      if id <= 99999 {
        assert Pow10(5) == 100000;
        NatToStringLength(id, 5);
      }
    } else {
      assert FormatId5(id)[1..] == ZeroPad(NatToString(-id), 4);
      PaddedValue(-id, 4);
    }
  }

  /** A zero-padded decimal rendering reads back as the number. */
  lemma PaddedValue(n: nat, width: nat)
    ensures AllDigits(ZeroPad(NatToString(n), width))
    ensures DigitsValue(ZeroPad(NatToString(n), width)) == n
  {
    ZeroPadValue(NatToString(n), width);
    NatToStringRoundTrip(n);
  }

  /** A number below 10^k is written with at most k digits. */
  lemma {:induction false} NatToStringLength(n: nat, k: nat)
    requires k >= 1 && n < Pow10(k)
    ensures |NatToString(n)| <= k
  {
    if n >= 10 {
      assert n / 10 < Pow10(k - 1) by {
        assert Pow10(k) == 10 * Pow10(k - 1);
      }
      NatToStringLength(n / 10, k - 1);
    }
  }

  /** The first line of an item: its name, shortened to the name column. */
  function NameLine(it: Item): (line: string)
    requires it.productName.Some?
    ensures |line| <= NameWidth
    ensures |it.productName.value| <= NameWidth ==> line == it.productName.value
    ensures |it.productName.value| > NameWidth ==> line == it.productName.value[..NameWidth - 2] + ".."
  {
    Truncate(it.productName.value, NameWidth)
  }

  /** The second line of an item: `"  %d x %s = %s"` of quantity, unit price and line total. */
  function DetailLine(it: Item, money: real -> string): string {
    Concat(["  ", IntToString(it.quantity), " x ", money(it.price), " = ", money(it.subtotal)])
  }

  /** The pieces of a formatted line, written one after the other. */
  function Concat(parts: seq<string>): string {
    if |parts| == 0 then "" else parts[0] + Concat(parts[1..])
  }

  /** The two lines of every item, in item order. */
  function ItemLines(items: seq<Item>, money: real -> string): (lines: seq<string>)
    requires forall i :: 0 <= i < |items| ==> items[i].productName.Some?
    ensures |lines| == 2 * |items|
  {
    if |items| == 0 then []
    else
      var last := items[|items| - 1];
      ItemLines(items[..|items| - 1], money) + [NameLine(last), DetailLine(last, money)]
  }

  /** Item i owns lines 2i (its name) and 2i+1 (its amounts). */
  lemma {:induction false} ItemLinesAt(items: seq<Item>, money: real -> string, i: nat)
    requires forall j :: 0 <= j < |items| ==> items[j].productName.Some?
    requires i < |items|
    ensures ItemLines(items, money)[2 * i] == NameLine(items[i])
    ensures ItemLines(items, money)[2 * i + 1] == DetailLine(items[i], money)
  {
    var n := |items|;
    if i < n - 1 {
      var front := items[..n - 1];
      assert front[i] == items[i];
      ItemLinesAt(front, money, i);
    }
  }

  const StoreName: string := "KASIR HM"
  const StoreKind: string := "Toko Kelontong"
  const StoreAddress: string := "JL. Contoh No. 123"
  const Thanks: string := "Terima Kasih"
  const Farewell: string := "Selamat Berbelanja Kembali"

  /** The eight lines above the items: store, divider, sale number, date, cashier, thin divider. */
  function HeaderLines(t: Transaction, cashier: string, date: DateTime -> string): (lines: seq<string>)
    ensures |lines| == 8
    ensures lines[0] == Center(StoreName, Width) && lines[1] == Center(StoreKind, Width)
    ensures lines[2] == Center(StoreAddress, Width)
    ensures lines[3] == Divider && lines[7] == ThinDivider
    ensures lines[4] == "No: TRX-" + FormatId5(t.id)
    ensures lines[5] == "Tgl: " + date(t.date)
    ensures lines[6] == "Kasir: " + cashier
  {
    [Center(StoreName, Width), Center(StoreKind, Width), Center(StoreAddress, Width),
     Divider,
     "No: TRX-" + FormatId5(t.id), "Tgl: " + date(t.date), "Kasir: " + cashier,
     ThinDivider]
  }

  /** Whether the receipt carries a discount line: only for a positive percentage. */
  function DiscountLineCount(t: Transaction): (d: nat)
    ensures d == 1 <==> t.discountPercent > 0.0
    ensures d <= 1
  {
    if t.discountPercent > 0.0 then 1 else 0
  }

  /** The lines below the items: amounts, the optional discount line, dividers and the footer. */
  function TotalsLines(t: Transaction, money: real -> string, percent: real -> string): (lines: seq<string>)
    ensures var d := DiscountLineCount(t);
      && |lines| == 9 + d
      && lines[0] == ThinDivider
      && lines[1] == RightAlign("Subtotal:", money(t.subtotal), Width)
      && (d == 1 ==> lines[2] == RightAlign("Diskon (" + percent(t.discountPercent) + "%):",
                                            "-" + money(t.discountAmount), Width))
      && lines[3 + d] == RightAlign("TOTAL:", money(t.total), Width)
      && lines[4 + d] == RightAlign("Bayar:", money(t.payment), Width)
      && lines[5 + d] == RightAlign("Kembali:", money(t.changeAmount), Width)
      && lines[2 + d] == Divider && lines[6 + d] == Divider
      && lines[7 + d] == Center(Thanks, Width)
      && lines[8 + d] == Center(Farewell, Width)
  {
    var discount := if t.discountPercent > 0.0 then
                      [RightAlign("Diskon (" + percent(t.discountPercent) + "%):", "-" + money(t.discountAmount), Width)]
                    else [];
    [ThinDivider, RightAlign("Subtotal:", money(t.subtotal), Width)] + discount
    + [Divider,
       RightAlign("TOTAL:", money(t.total), Width),
       RightAlign("Bayar:", money(t.payment), Width),
       RightAlign("Kembali:", money(t.changeAmount), Width),
       Divider,
       Center(Thanks, Width), Center(Farewell, Width)]
  }

  /**
   * `generateReceiptText`, line by line: header, two lines per item, then
   * the totals; the discount line appears exactly when the percentage is
   * positive, and it shifts every later line down by one.
   */
  function ReceiptLines(t: Transaction, cashier: string, money: real -> string,
                        date: DateTime -> string, percent: real -> string): (lines: seq<string>)
    requires forall i :: 0 <= i < |t.items| ==> t.items[i].productName.Some?
    ensures var n := |t.items|;
      var d := DiscountLineCount(t);
      && |lines| == 17 + 2 * n + d
      && lines[4] == "No: TRX-" + FormatId5(t.id)
      && lines[5] == "Tgl: " + date(t.date)
      && lines[6] == "Kasir: " + cashier
      && lines[8..8 + 2 * n] == ItemLines(t.items, money)
      && lines[9 + 2 * n] == RightAlign("Subtotal:", money(t.subtotal), Width)
      && (d == 1 ==> lines[10 + 2 * n] == RightAlign("Diskon (" + percent(t.discountPercent) + "%):",
                                                    "-" + money(t.discountAmount), Width))
      && lines[11 + 2 * n + d] == RightAlign("TOTAL:", money(t.total), Width)
      && lines[12 + 2 * n + d] == RightAlign("Bayar:", money(t.payment), Width)
      && lines[13 + 2 * n + d] == RightAlign("Kembali:", money(t.changeAmount), Width)
      && lines[|lines| - 1] == Center(Farewell, Width)
  {
    var header := HeaderLines(t, cashier, date);
    var body := ItemLines(t.items, money);
    var totals := TotalsLines(t, money, percent);
    ConcatParts(header, body, totals);
    header + body + totals
  }

  /** Where the three parts of a concatenation sit in it. */
  lemma ConcatParts<T>(a: seq<T>, b: seq<T>, c: seq<T>)
    ensures forall j :: 0 <= j < |a| ==> (a + b + c)[j] == a[j]
    ensures (a + b + c)[|a|..|a| + |b|] == b
    ensures forall j :: 0 <= j < |c| ==> (a + b + c)[|a| + |b| + j] == c[j]
  {
  }

  // ---------------------------------------------------------------- text and printing

  predicate NoNewline(s: string) {
    forall i :: 0 <= i < |s| ==> s[i] != '\n'
  }

  /** The `StringBuilder` result: every line followed by a newline. */
  function JoinLines(lines: seq<string>): (text: string)
    ensures |lines| > 0 ==> |text| > 0 && text[|text| - 1] == '\n'
  {
    if |lines| == 0 then "" else lines[0] + "\n" + JoinLines(lines[1..])
  }

  /** The pieces between newlines, keeping every empty piece. */
  function Segments(s: string): (parts: seq<string>)
    ensures |parts| >= 1
    decreases |s|
  {
    var k := IndexOf(s, '\n');
    if k == |s| then [s] else [s[..k]] + Segments(s[k + 1..])
  }

  /** Drops empty strings at the end of the list. */
  function DropTrailingEmpty(parts: seq<string>): (r: seq<string>)
    ensures |r| <= |parts| && r == parts[..|r|]
    ensures |r| > 0 ==> r[|r| - 1] != ""
    ensures forall i :: |r| <= i < |parts| ==> parts[i] == ""
  {
    if |parts| == 0 then []
    else if parts[|parts| - 1] == "" then DropTrailingEmpty(parts[..|parts| - 1])
    else parts
  }

  /**
   * Java's `String.split("\n")`: text without a newline comes back as the
   * only piece (even when empty); otherwise the newline-separated pieces
   * without the trailing empty ones.
   */
  function Split(s: string): (parts: seq<string>)
    ensures forall i :: 0 <= i < |parts| ==> NoNewline(parts[i])
    ensures IndexOf(s, '\n') == |s| ==> parts == [s]
    ensures IndexOf(s, '\n') < |s| && |parts| > 0 ==> parts[|parts| - 1] != ""
  {
    SegmentsNoNewline(s);
    if IndexOf(s, '\n') == |s| then [s] else DropTrailingEmpty(Segments(s))
  }

  /**
   * The pieces rebuild the text: written back one per line they give the
   * text with a final newline, short of a tail made only of newlines.
   */
  lemma SplitPieces(s: string)
    ensures JoinLines(Split(s)) <= s + "\n"
    ensures forall i :: |JoinLines(Split(s))| <= i < |s| + 1 ==> (s + "\n")[i] == '\n'
  {
    var text := s + "\n";
    if IndexOf(s, '\n') < |s| {
      var all := Segments(s);
      var joined := JoinLines(DropTrailingEmpty(all));
      var tail := Repeat('\n', |all| - |DropTrailingEmpty(all)|);
      SegmentsJoin(s);
      DropTrailingJoin(all);
      assert text == joined + tail;
      PrefixThenTail(joined, tail);
    } else {
      assert JoinLines([s]) == text + JoinLines([]);
    }
  }

  /** In `x + y`, `x` is a prefix and what follows it is `y`. */
  lemma PrefixThenTail(x: string, y: string)
    ensures x <= x + y
    ensures forall i :: |x| <= i < |x + y| ==> (x + y)[i] == y[i - |x|]
  {
  }

  /** Joining the lines of two lists is joining each list. */
  lemma {:induction false} JoinLinesConcat(a: seq<string>, b: seq<string>)
    ensures JoinLines(a + b) == JoinLines(a) + JoinLines(b)
  {
    if |a| == 0 {
      assert a + b == b;
    } else {
      assert (a + b)[0] == a[0];
      assert (a + b)[1..] == a[1..] + b;
      JoinLinesConcat(a[1..], b);
    }
  }

  /** Empty lines joined are just their newlines. */
  lemma {:induction false} JoinEmpties(lines: seq<string>)
    requires forall i :: 0 <= i < |lines| ==> lines[i] == ""
    ensures JoinLines(lines) == Repeat('\n', |lines|)
  {
    if |lines| > 0 {
      JoinEmpties(lines[1..]);
      assert JoinLines(lines) == "\n" + Repeat('\n', |lines| - 1);
    }
  }

  /** Dropping trailing empty pieces drops one newline each. */
  lemma DropTrailingJoin(parts: seq<string>)
    ensures JoinLines(parts)
         == JoinLines(DropTrailingEmpty(parts)) + Repeat('\n', |parts| - |DropTrailingEmpty(parts)|)
  {
    var r := DropTrailingEmpty(parts);
    var tail := parts[|r|..];
    assert parts == r + tail;
    JoinLinesConcat(r, tail);
    JoinEmpties(tail);
  }

  /** Cutting at every newline and writing the pieces back one per line adds exactly one final newline. */
  lemma {:induction false} SegmentsJoin(s: string)
    ensures JoinLines(Segments(s)) == s + "\n"
    decreases |s|
  {
    var k := IndexOf(s, '\n');
    if k == |s| {
      assert Segments(s) == [s];
    } else {
      var rest := s[k + 1..];
      var tail := Segments(rest);
      assert Segments(s) == [s[..k]] + tail;
      assert ([s[..k]] + tail)[1..] == tail;
      SegmentsJoin(rest);
      assert s == s[..k] + "\n" + rest;
    }
  }

  lemma {:induction false} SegmentsNoNewline(s: string)
    ensures forall i :: 0 <= i < |Segments(s)| ==> NoNewline(Segments(s)[i])
    decreases |s|
  {
    var k := IndexOf(s, '\n');
    if k < |s| {
      SegmentsNoNewline(s[k + 1..]);
    }
  }

  /** Cutting at the first newline after a newline-free line yields that line, then the rest's pieces. */
  lemma SegmentsStep(line: string, rest: string)
    requires NoNewline(line)
    ensures Segments(line + "\n" + rest) == [line] + Segments(rest)
  {
    var s := line + "\n" + rest;
    NewlineIndexAfter(line, rest);
    assert s[..|line|] == line;
    assert s[|line| + 1..] == rest;
  }

  /** Joining newline-free lines and cutting at the newlines gives the lines back, then one empty piece. */
  lemma {:induction false} SegmentsOfJoin(lines: seq<string>)
    requires forall i :: 0 <= i < |lines| ==> NoNewline(lines[i])
    ensures Segments(JoinLines(lines)) == lines + [""]
  {
    if |lines| == 0 {
      assert Segments("") == [""];
    } else {
      var rest := JoinLines(lines[1..]);
      var tail := Segments(rest);
      assert tail == lines[1..] + [""] by {
        SegmentsOfJoin(lines[1..]);
      }
      assert Segments(JoinLines(lines)) == [lines[0]] + tail by {
        assert JoinLines(lines) == lines[0] + "\n" + rest;
        SegmentsStep(lines[0], rest);
      }
      assert [lines[0]] + tail == lines + [""];
    }
  }

  lemma NewlineIndexAfter(line: string, rest: string)
    requires NoNewline(line)
    ensures IndexOf(line + "\n" + rest, '\n') == |line|
    decreases |line|
  {
    if |line| > 0 {
      assert (line + "\n" + rest)[1..] == line[1..] + "\n" + rest;
      NewlineIndexAfter(line[1..], rest);
    }
  }

  /**
   * `print(Graphics, …)` splits the receipt text back into lines: when no
   * line holds a newline and the last is not empty, it draws exactly the
   * lines that were written.
   */
  lemma {:induction false} SplitJoinRoundTrip(lines: seq<string>)
    requires forall i :: 0 <= i < |lines| ==> NoNewline(lines[i])
    requires |lines| > 0 && lines[|lines| - 1] != ""
    ensures Split(JoinLines(lines)) == lines
  {
    SegmentsOfJoin(lines);
    var parts := lines + [""];
    assert parts[..|parts| - 1] == lines;
  }

  /** The text the preview shows and the printer splits. */
  function ReceiptText(t: Transaction, cashier: string, money: real -> string,
                       date: DateTime -> string, percent: real -> string): (text: string)
    requires forall i :: 0 <= i < |t.items| ==> t.items[i].productName.Some?
    ensures text == JoinLines(ReceiptLines(t, cashier, money, date, percent))
    ensures |text| > 0 && text[|text| - 1] == '\n'
  {
    JoinLines(ReceiptLines(t, cashier, money, date, percent))
  }

  /** The printed page holds one drawn line per receipt line, in order. */
  lemma PrintedLines(t: Transaction, cashier: string, money: real -> string,
                     date: DateTime -> string, percent: real -> string)
    requires forall i :: 0 <= i < |t.items| ==> t.items[i].productName.Some?
    requires var lines := ReceiptLines(t, cashier, money, date, percent);
      forall i :: 0 <= i < |lines| ==> NoNewline(lines[i])
    ensures Split(ReceiptText(t, cashier, money, date, percent)) == ReceiptLines(t, cashier, money, date, percent)
  {
    var lines := ReceiptLines(t, cashier, money, date, percent);
    assert lines[|lines| - 1] != "" by {
      assert |Center(Farewell, Width)| >= |Farewell| > 0;
    }
    SplitJoinRoundTrip(lines);
  }
}
