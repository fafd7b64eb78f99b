/** Printing identifiers as text, and scanning them back. */
module Guids {
  import opened Results
  import opened Bytes
  import opened Division
  import opened Words
  import opened Headers

  /** A print or scan format: hexadecimal fields of given widths, and literal dashes. */
  datatype Format = End | Hex(width: nat, rest: Format) | Dash(rest: Format)

  const PAIRS_6: Format := Hex(2, Hex(2, Hex(2, Hex(2, Hex(2, Hex(2, End))))))

  const GUID_FORMAT: Format := Hex(8, Dash(Hex(4, Dash(Hex(4, Dash(Hex(2, Hex(2, Dash(PAIRS_6)))))))))

  const DIGITS := "0123456789abcdef"

  function Pow16(n: nat): (p: nat)
    ensures p > 0
  {
    if n == 0 then 1 else 16 * Pow16(n - 1)
  }

  /** The last n hexadecimal digits of v, in lower case and with leading zeros. */
  function Print(v: nat, n: nat): (s: string)
    ensures |s| == n
    ensures forall i :: 0 <= i < n ==> s[i] in DIGITS
  {
    if n == 0 then "" else Print(v / 16, n - 1) + [DIGITS[v % 16]]
  }

  /** The value of a hexadecimal digit of either case. */
  function Digit(c: char): Option<nat>
  {
    if '0' <= c <= '9' then Some((c - '0') as nat)
    else if 'a' <= c <= 'f' then Some((c - 'a') as nat + 10)
    else if 'A' <= c <= 'F' then Some((c - 'A') as nat + 10)
    else None
  }

  /** How many of the first n characters of s are hexadecimal digits, up to the first that is not. */
  function Span(s: string, n: nat): (k: nat)
    ensures k <= n && k <= |s|
    ensures forall i :: 0 <= i < k ==> Digit(s[i]).Some?
  {
    if n == 0 || s == "" || Digit(s[0]) == None then 0 else 1 + Span(s[1..], n - 1)
  }

  /** The number written by these digits. */
  function Value(s: string): nat
    requires forall i :: 0 <= i < |s| ==> Digit(s[i]).Some?
  {
    if s == "" then 0 else 16 * Value(s[..|s| - 1]) + Digit(s[|s| - 1]).value
  }

  /** The fields scanned by a format, or None when some item does not match. What follows the last item is ignored. */
  function Scan(format: Format, s: string): Option<seq<nat>>
  {
    match format
    case End => Some([])
    case Dash(rest) => if s != "" && s[0] == '-' then Scan(rest, s[1..]) else None
    case Hex(width, rest) =>
      var k := Span(s, width);
      if k == 0 then None
      else
        var others := Scan(rest, s[k..]);
        if others == None then None else Some([Value(s[..k])] + others.value)
  }

  /** Do the values fit the fields of the format, one value a field? */
  predicate Fits(format: Format, values: seq<nat>)
  {
    match format
    case End => values == []
    case Dash(rest) => Fits(rest, values)
    case Hex(width, rest) => values != [] && 0 < width && values[0] < Pow16(width) && Fits(rest, values[1..])
  }

  /** The values printed by a format, each with all the digits of its field. */
  function PrintAll(format: Format, values: seq<nat>): string
    requires Fits(format, values)
  {
    match format
    case End => ""
    case Dash(rest) => "-" + PrintAll(rest, values)
    case Hex(width, rest) => Print(values[0], width) + PrintAll(rest, values[1..])
  }

  /** The digits of either case have the values 0 to 15, and no other character has one. */
  lemma DigitValues(d: nat, c: char)
    requires d < 16
    ensures Digit("0123456789abcdef"[d]) == Digit("0123456789ABCDEF"[d]) == Some(d)
    ensures Digit(c).Some? <==> '0' <= c <= '9' || 'a' <= c <= 'f' || 'A' <= c <= 'F'
  {
  }

  lemma DigitReads(d: nat)
    requires d < 16
    ensures Digit(DIGITS[d]) == Some(d)
  {
  }

  lemma DigitsOnly(c: char)
    requires c in DIGITS
    ensures Digit(c).Some?
  {
  }

  lemma {:induction false} SpanAll(s: string, rest: string)
    requires forall i :: 0 <= i < |s| ==> s[i] in DIGITS
    ensures Span(s + rest, |s|) == |s|
  {
    if s != "" {
      DigitsOnly(s[0]);
      assert (s + rest)[1..] == s[1..] + rest;
      SpanAll(s[1..], rest);
    }
  }

  lemma {:induction false} ValueReads(v: nat, n: nat)
    requires v < Pow16(n)
    ensures (forall i :: 0 <= i < n ==> Digit(Print(v, n)[i]).Some?) && Value(Print(v, n)) == v
  {
    forall i | 0 <= i < n
      ensures Digit(Print(v, n)[i]).Some?
    {
      DigitsOnly(Print(v, n)[i]);
    }
    if n > 0 {
      ValueReads(v / 16, n - 1);
      DigitReads(v % 16);
      assert Print(v, n)[..n - 1] == Print(v / 16, n - 1);
    }
  }

  /** Scanning undoes printing by the same format, also where one field follows another without a dash. */
  lemma {:induction false} ScanUndoesPrint(format: Format, values: seq<nat>, after: string)
    requires Fits(format, values)
    ensures Scan(format, PrintAll(format, values) + after) == Some(values)
  {
    hide Print, Value, Span, Pow16;
    var s := PrintAll(format, values) + after;
    match format
    case End =>
    case Dash(rest) =>
      assert s[1..] == PrintAll(rest, values) + after;
      ScanUndoesPrint(rest, values, after);
    case Hex(width, rest) =>
      var head, tail := Print(values[0], width), PrintAll(rest, values[1..]) + after;
      assert s == head + tail;
      SpanAll(head, tail);
      ValueReads(values[0], width);
      assert s[..width] == head && s[width..] == tail;
      ScanUndoesPrint(rest, values[1..], after);
      assert values == [values[0]] + values[1..];
  }

  function Dashes(format: Format): nat
  {
    match format
    case End => 0
    case Dash(rest) => 1 + Dashes(rest)
    case Hex(width, rest) => Dashes(rest)
  }

  /** A text that is scanned has every dash of the format. */
  lemma {:induction false} ScanNeedsDashes(format: Format, s: string)
    ensures Scan(format, s).Some? ==> multiset(s)['-'] >= Dashes(format)
  {
    match format
    case End =>
    case Dash(rest) =>
      if s != "" {
        assert s == [s[0]] + s[1..];
        ScanNeedsDashes(rest, s[1..]);
      }
    case Hex(width, rest) =>
      var k := Span(s, width);
      assert s == s[..k] + s[k..];
      ScanNeedsDashes(rest, s[k..]);
  }

  /** The numbers an identifier consists of: one of 4 bytes, two of 2, and eight single bytes. */
  function Parts(g: Guid, order: ByteOrder): (p: seq<nat>)
    ensures |p| == 11
  {
    [LoadWord(g[0..4], order), LoadWord(g[4..6], order), LoadWord(g[6..8], order),
     g[8], g[9], g[10], g[11], g[12], g[13], g[14], g[15]]
  }

  /** The identifier made of these numbers, each cut to the size it has there. */
  function FromParts(p: seq<nat>, order: ByteOrder): Guid
    requires |p| == 11
  {
    StoreWord(p[0], 4, order) + StoreWord(p[1], 2, order) + StoreWord(p[2], 2, order)
    + [p[3] % 256, p[4] % 256, p[5] % 256, p[6] % 256, p[7] % 256, p[8] % 256, p[9] % 256, p[10] % 256]
  }

  lemma {:induction false} PartsFit(p: seq<nat>)
    requires |p| == 11 && p[0] < 0x1_0000_0000 && p[1] < 0x1_0000 && p[2] < 0x1_0000
    requires forall i :: 3 <= i < 11 ==> p[i] < 0x100
    ensures Fits(GUID_FORMAT, p)
  {
    PowersOf16();
    PairsFit(p[5..]);
    var tail := Dash(PAIRS_6);
    assert p[3..][1..] == p[4..] && p[4..][1..] == p[5..];
    assert Fits(Hex(2, tail), p[4..]);
    assert Fits(Hex(2, Hex(2, tail)), p[3..]);
    assert p[2..][1..] == p[3..] && p[1..][1..] == p[2..];
    assert Fits(Hex(4, Dash(Hex(2, Hex(2, tail)))), p[2..]);
    assert Fits(Hex(4, Dash(Hex(4, Dash(Hex(2, Hex(2, tail)))))), p[1..]);
  }

  lemma {:induction false} PairsFit(p: seq<nat>)
    requires |p| == 6 && forall i :: 0 <= i < 6 ==> p[i] < 0x100
    ensures Fits(PAIRS_6, p)
  {
    PowersOf16();
    assert p[5..][1..] == [] && p[4..][1..] == p[5..] && p[3..][1..] == p[4..];
    assert Fits(Hex(2, End), p[5..]);
    assert Fits(Hex(2, Hex(2, Hex(2, End))), p[3..]);
    assert p[2..][1..] == p[3..] && p[1..][1..] == p[2..];
    assert Fits(Hex(2, Hex(2, Hex(2, Hex(2, Hex(2, End))))), p[1..]);
  }

  lemma PowersOf16()
    ensures Pow16(2) == 0x100 && Pow16(4) == 0x1_0000 && Pow16(8) == 0x1_0000_0000
  {
    assert Pow16(2) == 0x100;
    assert Pow16(4) == 0x1_0000;
    assert Pow16(6) == 0x100_0000;
  }

  lemma GuidFits(g: Guid, order: ByteOrder)
    ensures Fits(GUID_FORMAT, Parts(g, order))
  {
    PowersOfTwo();
    var p := Parts(g, order);
    assert p[0] == LoadWord(g[0..4], order) && p[1] == LoadWord(g[4..6], order) && p[2] == LoadWord(g[6..8], order);
    hide Fits, GUID_FORMAT, Parts, LoadWord, Pow2;
    PartsFit(p);
  }

  function GuidToHex(g: Guid, order: ByteOrder): string
  {
    GuidFits(g, order);
    PrintAll(GUID_FORMAT, Parts(g, order))
  }

  /** The identifier a text starts with, if it has that form. */
  function HexToGuid(s: string, order: ByteOrder): Option<Guid>
  {
    match Scan(GUID_FORMAT, s)
    case None => None
    case Some(p) => if |p| == 11 then Some(FromParts(p, order)) else None
  }

  /** A text with fewer than four dashes is no identifier. */
  lemma FourDashes(s: string, order: ByteOrder)
    ensures HexToGuid(s, order).Some? ==> multiset(s)['-'] >= 4
  {
    hide Scan;
    ScanNeedsDashes(GUID_FORMAT, s);
    var last := Dash(PAIRS_6);
    assert Dashes(Hex(2, Hex(2, last))) == 1;
    assert Dashes(Hex(4, Dash(Hex(2, Hex(2, last))))) == 2;
  }

  /** An identifier printed and scanned is the same identifier, whatever follows the text. */
  lemma GuidRoundTrip(g: Guid, after: string, order: ByteOrder)
    ensures HexToGuid(GuidToHex(g, order) + after, order) == Some(g)
  {
    hide Scan, PrintAll, Fits, GUID_FORMAT;
    GuidFits(g, order);
    ScanUndoesPrint(GUID_FORMAT, Parts(g, order), after);
    PartsRejoin(g, order);
  }

  lemma PartsRejoin(g: Guid, order: ByteOrder)
    ensures FromParts(Parts(g, order), order) == g
  {
    hide LoadWord, StoreWord;
    StoresBack(g[0..4], order);
    StoresBack(g[4..6], order);
    StoresBack(g[6..8], order);
  }

  /** Different identifiers print differently. */
  lemma GuidToHexInjective(g: Guid, h: Guid, order: ByteOrder)
    ensures GuidToHex(g, order) == GuidToHex(h, order) <==> g == h
  {
    hide GuidToHex, HexToGuid;
    GuidRoundTrip(g, "", order);
    GuidRoundTrip(h, "", order);
    assert GuidToHex(g, order) + "" == GuidToHex(g, order) && GuidToHex(h, order) + "" == GuidToHex(h, order);
  }

  lemma PrintedField(width: nat, rest: Format, p: seq<nat>, i: nat, s: string, at: nat)
    requires i <= |p| && at <= |s| && Fits(Hex(width, rest), p[i..]) && s[at..] == PrintAll(Hex(width, rest), p[i..])
    ensures i < |p| && at + width <= |s| && s[at..at + width] == Print(p[i], width)
    ensures Fits(rest, p[i + 1..]) && s[at + width..] == PrintAll(rest, p[i + 1..])
  {
    hide Print;
    assert p[i..][1..] == p[i + 1..];
    assert s[at..][..width] == Print(p[i], width) && s[at..][width..] == PrintAll(rest, p[i + 1..]);
  }

  lemma PrintedDash(rest: Format, p: seq<nat>, i: nat, s: string, at: nat)
    requires i <= |p| && at <= |s| && Fits(Dash(rest), p[i..]) && s[at..] == PrintAll(Dash(rest), p[i..])
    ensures at < |s| && s[at] == '-' && Fits(rest, p[i..]) && s[at + 1..] == PrintAll(rest, p[i..])
  {
    assert s[at..][0] == '-' && s[at..][1..] == PrintAll(rest, p[i..]);
  }

  lemma PrintedPairs(p: seq<nat>, i: nat, s: string, at: nat)
    requires i <= |p| && at <= |s| && Fits(PAIRS_6, p[i..]) && s[at..] == PrintAll(PAIRS_6, p[i..])
    ensures |p| == i + 6 && |s| == at + 12
    ensures s[at..at + 2] == Print(p[i], 2) && s[at + 2..at + 4] == Print(p[i + 1], 2)
    ensures s[at + 4..at + 6] == Print(p[i + 2], 2) && s[at + 6..at + 8] == Print(p[i + 3], 2)
    ensures s[at + 8..at + 10] == Print(p[i + 4], 2) && s[at + 10..at + 12] == Print(p[i + 5], 2)
  {
    hide Print, Fits, PrintAll;
    PrintedField(2, Hex(2, Hex(2, Hex(2, Hex(2, Hex(2, End))))), p, i, s, at);
    PrintedField(2, Hex(2, Hex(2, Hex(2, Hex(2, End)))), p, i + 1, s, at + 2);
    PrintedField(2, Hex(2, Hex(2, Hex(2, End))), p, i + 2, s, at + 4);
    PrintedField(2, Hex(2, Hex(2, End)), p, i + 3, s, at + 6);
    PrintedField(2, Hex(2, End), p, i + 4, s, at + 8);
    PrintedField(2, End, p, i + 5, s, at + 10);
    PrintedEnd(p[i + 6..], s[at + 12..]);
  }

  lemma PrintedEnd(p: seq<nat>, s: string)
    requires Fits(End, p) && s == PrintAll(End, p)
    ensures p == [] && s == ""
  {
  }

  /** What stands at each place of a printed identifier: the words in bytes 0 to 4, 4 to 6 and 6 to 8, then byte by byte. */
  lemma GuidPlaces(g: Guid, order: ByteOrder)
    ensures var s := GuidToHex(g, order);
      && |s| == 36 && s[8] == '-' && s[13] == '-' && s[18] == '-' && s[23] == '-'
      && s[0..8] == Print(LoadWord(g[0..4], order), 8)
      && s[9..13] == Print(LoadWord(g[4..6], order), 4) && s[14..18] == Print(LoadWord(g[6..8], order), 4)
      && s[19..21] == Print(g[8], 2) && s[21..23] == Print(g[9], 2)
      && s[24..26] == Print(g[10], 2) && s[26..28] == Print(g[11], 2) && s[28..30] == Print(g[12], 2)
      && s[30..32] == Print(g[13], 2) && s[32..34] == Print(g[14], 2) && s[34..36] == Print(g[15], 2)
  {
    GuidFits(g, order);
    var p, s := Parts(g, order), GuidToHex(g, order);
    assert p[0] == LoadWord(g[0..4], order) && p[1] == LoadWord(g[4..6], order) && p[2] == LoadWord(g[6..8], order);
    assert p[3..] == [g[8], g[9], g[10], g[11], g[12], g[13], g[14], g[15]];
    assert p[0..] == p && s[0..] == s;
    PrintedPlaces(p, s);
    assert p[3..][0] == p[3] && p[3..][1] == p[4] && p[3..][2] == p[5] && p[3..][3] == p[6] && p[3..][4] == p[7];
    assert p[3..][5] == p[8] && p[3..][6] == p[9] && p[3..][7] == p[10];
  }

  lemma PrintedPlaces(p: seq<nat>, s: string)
    requires Fits(GUID_FORMAT, p[0..]) && s[0..] == PrintAll(GUID_FORMAT, p[0..])
    ensures |p| == 11 && |s| == 36 && s[8] == '-' && s[13] == '-' && s[18] == '-' && s[23] == '-'
    ensures s[0..8] == Print(p[0], 8) && s[9..13] == Print(p[1], 4) && s[14..18] == Print(p[2], 4)
    ensures s[19..21] == Print(p[3], 2) && s[21..23] == Print(p[4], 2)
    ensures s[24..26] == Print(p[5], 2) && s[26..28] == Print(p[6], 2) && s[28..30] == Print(p[7], 2)
    ensures s[30..32] == Print(p[8], 2) && s[32..34] == Print(p[9], 2) && s[34..36] == Print(p[10], 2)
  {
    hide Print, Fits, PrintAll;
    var last := Dash(PAIRS_6);
    var third := Hex(4, Dash(Hex(2, Hex(2, last))));
    PrintedField(8, Dash(Hex(4, Dash(third))), p, 0, s, 0);
    PrintedDash(Hex(4, Dash(third)), p, 1, s, 8);
    PrintedField(4, Dash(third), p, 1, s, 9);
    PrintedDash(third, p, 2, s, 13);
    PrintedField(4, Dash(Hex(2, Hex(2, last))), p, 2, s, 14);
    PrintedDash(Hex(2, Hex(2, last)), p, 3, s, 18);
    PrintedField(2, Hex(2, last), p, 3, s, 19);
    PrintedField(2, last, p, 4, s, 21);
    PrintedDash(PAIRS_6, p, 5, s, 23);
    PrintedPairs(p, 5, s, 24);
  }

  /** The digit at each place of a printed number. */
  lemma {:induction false} PrintedDigit(v: nat, n: nat, i: nat)
    requires i < n
    ensures Print(v, n)[i] == "0123456789abcdef"[(v / Pow16(n - 1 - i)) % 16]
  {
    if i < n - 1 {
      PrintedDigit(v / 16, n - 1, i);
      DigitBehind(v, n - 1 - i);
    } else {
      assert Pow16(0) == 1;
    }
  }

  lemma DigitBehind(v: nat, n: nat)
    requires n > 0
    ensures v / 16 / Pow16(n - 1) == v / Pow16(n)
  {
    DivTwice(v, 16, Pow16(n - 1));
  }

  // ---------------------------------------------------------------------------
  // Which texts are printed at all.

  /** Eight, four, four, four and twelve digits, all in lower case, with dashes between them. */
  predicate IdentifierText(s: string)
  {
    && |s| == 36 && s[8] == '-' && s[13] == '-' && s[18] == '-' && s[23] == '-'
    && AllDigits(s[0..8]) && AllDigits(s[9..13]) && AllDigits(s[14..18]) && AllDigits(s[19..23]) && AllDigits(s[24..36])
  }

  /** The text consists of the fields and dashes of the format, every field with all its digits. */
  predicate HasForm(format: Format, s: string)
  {
    match format
    case End => s == ""
    case Dash(rest) => s != "" && s[0] == '-' && HasForm(rest, s[1..])
    case Hex(width, rest) => 0 < width <= |s| && AllDigits(s[..width]) && HasForm(rest, s[width..])
  }

  predicate AllDigits(s: string)
  {
    forall i :: 0 <= i < |s| ==> s[i] in DIGITS
  }

  lemma {:induction false} PrintsInForm(format: Format, values: seq<nat>)
    requires Fits(format, values)
    ensures HasForm(format, PrintAll(format, values))
  {
    var s := PrintAll(format, values);
    match format
    case End =>
    case Dash(rest) =>
      PrintsInForm(rest, values);
      assert s[1..] == PrintAll(rest, values);
    case Hex(width, rest) =>
      PrintsInForm(rest, values[1..]);
      assert s[..width] == Print(values[0], width) && s[width..] == PrintAll(rest, values[1..]);
  }

  /** The number that prints as these digits. */
  lemma {:induction false} DigitsPrinted(s: string) returns (v: nat)
    requires AllDigits(s)
    ensures v < Pow16(|s|) && Print(v, |s|) == s
  {
    if s == "" {
      v := 0;
    } else {
      var n := |s| - 1;
      var front := DigitsPrinted(s[..n]);
      var d :| 0 <= d < 16 && DIGITS[d] == s[n];
      v := 16 * front + d;
      assert v / 16 == front && v % 16 == d;
      assert s == s[..n] + [s[n]];
    }
  }

  lemma {:induction false} FormPrinted(format: Format, s: string) returns (values: seq<nat>)
    requires HasForm(format, s)
    ensures Fits(format, values) && PrintAll(format, values) == s
  {
    hide Print, Pow16, AllDigits;
    match format
    case End => values := [];
    case Dash(rest) =>
      values := FormPrinted(rest, s[1..]);
      assert s == "-" + s[1..];
    case Hex(width, rest) =>
      var v := DigitsPrinted(s[..width]);
      var others := FormPrinted(rest, s[width..]);
      values := [v] + others;
      assert values[1..] == others && s == s[..width] + s[width..];
  }

  /** The numbers of an identifier made of numbers that fit are those numbers. */
  lemma PartsOfParts(p: seq<nat>, order: ByteOrder)
    requires |p| == 11 && p[0] < 0x1_0000_0000 && p[1] < 0x1_0000 && p[2] < 0x1_0000
    requires forall i :: 3 <= i < 11 ==> p[i] < 0x100
    ensures Parts(FromParts(p, order), order) == p
  {
    hide LoadWord, StoreWord, Pow2;
    PowersOfTwo();
    WordRoundTrip(p[0], 4, order);
    WordRoundTrip(p[1], 2, order);
    WordRoundTrip(p[2], 2, order);
    var g := FromParts(p, order);
    assert g[0..4] == StoreWord(p[0], 4, order) && g[4..6] == StoreWord(p[1], 2, order);
    assert g[6..8] == StoreWord(p[2], 2, order);
  }

  lemma FitsAt(width: nat, rest: Format, p: seq<nat>, i: nat)
    requires i <= |p| && Fits(Hex(width, rest), p[i..])
    ensures i < |p| && p[i] < Pow16(width) && Fits(rest, p[i + 1..])
  {
    assert p[i..][1..] == p[i + 1..];
  }

  lemma FitsBound(p: seq<nat>)
    requires Fits(GUID_FORMAT, p)
    ensures |p| == 11 && p[0] < 0x1_0000_0000 && p[1] < 0x1_0000 && p[2] < 0x1_0000
    ensures forall i :: 3 <= i < 11 ==> p[i] < 0x100
  {
    PowersOf16();
    var last := Dash(PAIRS_6);
    var third := Hex(4, Dash(Hex(2, Hex(2, last))));
    assert p[0..] == p;
    FitsAt(8, Dash(Hex(4, Dash(third))), p, 0);
    FitsAt(4, Dash(third), p, 1);
    FitsAt(4, Dash(Hex(2, Hex(2, last))), p, 2);
    FitsAt(2, Hex(2, last), p, 3);
    FitsAt(2, last, p, 4);
    PairsBound(p, 5);
  }

  lemma PairsBound(p: seq<nat>, i: nat)
    requires i <= |p| && Fits(PAIRS_6, p[i..])
    ensures |p| == i + 6 && forall j :: i <= j < |p| ==> p[j] < 0x100
  {
    PowersOf16();
    FitsAt(2, Hex(2, Hex(2, Hex(2, Hex(2, Hex(2, End))))), p, i);
    FitsAt(2, Hex(2, Hex(2, Hex(2, Hex(2, End)))), p, i + 1);
    FitsAt(2, Hex(2, Hex(2, Hex(2, End))), p, i + 2);
    FitsAt(2, Hex(2, Hex(2, End)), p, i + 3);
    FitsAt(2, Hex(2, End), p, i + 4);
    FitsAt(2, End, p, i + 5);
  }

  /** The length of a text of this form. */
  function Length(format: Format): nat
  {
    match format
    case End => 0
    case Dash(rest) => 1 + Length(rest)
    case Hex(width, rest) => width + Length(rest)
  }

  lemma {:induction false} FormLength(format: Format, s: string)
    requires HasForm(format, s)
    ensures |s| == Length(format)
  {
    match format
    case End =>
    case Dash(rest) => FormLength(rest, s[1..]);
    case Hex(width, rest) => FormLength(rest, s[width..]);
  }

  lemma FieldAt(width: nat, rest: Format, s: string, i: nat)
    requires 0 < width && i + width <= |s|
    ensures HasForm(Hex(width, rest), s[i..]) <==> AllDigits(s[i..i + width]) && HasForm(rest, s[i + width..])
  {
    assert s[i..][..width] == s[i..i + width] && s[i..][width..] == s[i + width..];
  }

  lemma DashAt(rest: Format, s: string, i: nat)
    requires i < |s|
    ensures HasForm(Dash(rest), s[i..]) <==> s[i] == '-' && HasForm(rest, s[i + 1..])
  {
    assert s[i..][1..] == s[i + 1..];
  }

  /** A text has the form of the format exactly when it is written as identifiers are. */
  lemma FormIsText(s: string)
    ensures HasForm(GUID_FORMAT, s) <==> IdentifierText(s)
  {
    if |s| != 36 {
      LengthIs36();
      if HasForm(GUID_FORMAT, s) {
        FormLength(GUID_FORMAT, s);
      }
    } else {
      LongForm(s);
    }
  }

  lemma LengthIs36()
    ensures Length(GUID_FORMAT) == 36
  {
    hide Length;
    var last := Dash(PAIRS_6);
    var group := Hex(2, Hex(2, last));
    var third := Hex(4, Dash(group));
    PairsLength();
    LengthNext(2, Hex(2, last));
    LengthNext(2, last);
    LengthNext(4, Dash(group));
    LengthNext(4, Dash(third));
    LengthNext(8, Dash(Hex(4, Dash(third))));
    DashLength(PAIRS_6);
    DashLength(group);
    DashLength(third);
    DashLength(Hex(4, Dash(third)));
  }

  lemma PairsLength()
    ensures Length(PAIRS_6) == 12
  {
    assert Length(Hex(2, Hex(2, Hex(2, End)))) == 6;
  }

  lemma LengthNext(width: nat, rest: Format)
    ensures Length(Hex(width, rest)) == width + Length(rest)
  {
  }

  lemma DashLength(rest: Format)
    ensures Length(Dash(rest)) == 1 + Length(rest)
  {
  }

  lemma SplitDigits(s: string, i: nat, j: nat, k: nat)
    requires i <= j <= k <= |s|
    ensures AllDigits(s[i..k]) <==> AllDigits(s[i..j]) && AllDigits(s[j..k])
  {
    assert s[i..k] == s[i..j] + s[j..k];
    assert s[i..j] == s[i..k][..j - i] && s[j..k] == s[i..k][j - i..];
  }

  lemma LongForm(s: string)
    requires |s| == 36
    ensures HasForm(GUID_FORMAT, s) <==> IdentifierText(s)
  {
    hide HasForm, AllDigits;
    var last := Dash(PAIRS_6);
    var third := Hex(4, Dash(Hex(2, Hex(2, last))));
    assert s[0..] == s;
    FieldAt(8, Dash(Hex(4, Dash(third))), s, 0);
    DashAt(Hex(4, Dash(third)), s, 8);
    FieldAt(4, Dash(third), s, 9);
    DashAt(third, s, 13);
    FieldAt(4, Dash(Hex(2, Hex(2, last))), s, 14);
    DashAt(Hex(2, Hex(2, last)), s, 18);
    FieldAt(2, Hex(2, last), s, 19);
    FieldAt(2, last, s, 21);
    SplitDigits(s, 19, 21, 23);
    DashAt(PAIRS_6, s, 23);
    PairsForm(s);
  }

  lemma PairsForm(s: string)
    requires |s| == 36
    ensures HasForm(PAIRS_6, s[24..]) <==> AllDigits(s[24..36])
  {
    hide HasForm, AllDigits;
    PairForm(s, 24, Hex(2, Hex(2, Hex(2, Hex(2, Hex(2, End))))));
    PairForm(s, 26, Hex(2, Hex(2, Hex(2, Hex(2, End)))));
    PairForm(s, 28, Hex(2, Hex(2, Hex(2, End))));
    PairForm(s, 30, Hex(2, Hex(2, End)));
    PairForm(s, 32, Hex(2, End));
    PairForm(s, 34, End);
    NothingLeft(s);
  }

  lemma PairForm(s: string, i: nat, rest: Format)
    requires i + 2 <= |s|
    ensures HasForm(Hex(2, rest), s[i..]) <==> AllDigits(s[i..i + 2]) && HasForm(rest, s[i + 2..])
    ensures AllDigits(s[i..|s|]) <==> AllDigits(s[i..i + 2]) && AllDigits(s[i + 2..|s|])
  {
    hide HasForm, AllDigits;
    FieldAt(2, rest, s, i);
    SplitDigits(s, i, i + 2, |s|);
  }

  lemma NothingLeft(s: string)
    ensures HasForm(End, s[|s|..]) && AllDigits(s[|s|..|s|])
  {
  }

  /** A text is printed for some identifier if and only if it has the one form in which identifiers are written. */
  lemma PrintedIffText(s: string, order: ByteOrder)
    ensures (exists g: Guid :: GuidToHex(g, order) == s) <==> IdentifierText(s)
  {
    hide IdentifierText, HasForm, Fits, PrintAll, Parts, FromParts, GUID_FORMAT;
    FormIsText(s);
    if IdentifierText(s) {
      var p := FormPrinted(GUID_FORMAT, s);
      FitsBound(p);
      PartsOfParts(p, order);
      GuidFits(FromParts(p, order), order);
      assert GuidToHex(FromParts(p, order), order) == s;
    }
    forall g: Guid | GuidToHex(g, order) == s
      ensures IdentifierText(s)
    {
      GuidFits(g, order);
      PrintsInForm(GUID_FORMAT, Parts(g, order));
    }
  }

  lemma PlainText(s: string)
    requires IdentifierText(s)
    ensures forall i :: 0 <= i < |s| ==> s[i] in DIGITS || s[i] == '-'
  {
    assert s == s[0..8] + "-" + s[9..13] + "-" + s[14..18] + "-" + s[19..23] + "-" + s[24..36];
  }

  /**
   An identifier is printed in one form only. A text that scans to an identifier but holds any character besides
   digits, small letters and dashes, such as a capital letter, is not printed for that identifier or for any other.
   */
  lemma OtherSpellingsLost(s: string, g: Guid, order: ByteOrder)
    requires exists i :: 0 <= i < |s| && s[i] !in DIGITS && s[i] != '-'
    ensures GuidToHex(g, order) != s
  {
    hide GuidToHex;
    PrintedIffText(s, order);
    if IdentifierText(s) {
      PlainText(s);
    }
  }
}
