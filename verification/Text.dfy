/** Strings as the key ids and the header parsers use them: decimal printing, the
    split at the last dash, `str.strip` and comma-separated lists. */
module Text {

  // ── Decimal printing ──────────────────────────────────────────────────────

  predicate IsDigit(c: char) {
    '0' <= c <= '9'
  }

  function DigitChar(d: nat): (c: char)
    requires d < 10
  {
    "0123456789"[d]
  }

  function Decimal(n: nat): (s: string)
    ensures s != ""
    ensures forall c :: c in s ==> IsDigit(c)
  {
    if n < 10 then [DigitChar(n)] else Decimal(n / 10) + [DigitChar(n % 10)]
  }

  /** The number a decimal text stands for, most significant digit first. */
  function NumberIn(s: string): int {
    if s == "" then 0 else NumberIn(s[..|s| - 1]) * 10 + (s[|s| - 1] as int - '0' as int)
  }

  /** Printing in decimal can be read back, and puts no zero in front. */
  lemma {:induction false} DecimalReadsBack(n: nat)
    ensures NumberIn(Decimal(n)) == n
    ensures n > 0 ==> Decimal(n)[0] != '0'
  {
    if n < 10 {
      assert NumberIn("") == 0;
    } else {
      DecimalReadsBack(n / 10);
      assert Decimal(n)[..|Decimal(n)| - 1] == Decimal(n / 10);
    }
  }

  lemma DecimalInjective(m: nat, n: nat)
    requires Decimal(m) == Decimal(n)
    ensures m == n
  {
    DecimalReadsBack(m);
    DecimalReadsBack(n);
  }

  // ── The last dash ─────────────────────────────────────────────────────────

  /** A string splits in at most one way into a head, a dash, and a dash-free tail. */
  lemma LastDashUnique(a: string, x: string, b: string, y: string)
    requires '-' !in x && '-' !in y
    requires a + "-" + x == b + "-" + y
    ensures a == b && x == y
  {
    var s := a + "-" + x;
    assert s[|a|] == '-' && s[|b|] == '-';
    assert forall k :: |a| < k < |s| ==> s[k] == x[k - |a| - 1];
    assert forall k :: |b| < k < |s| ==> s[k] == y[k - |b| - 1];
    assert |a| == |b|;
    assert a == s[..|a|] && b == s[..|a|];
    assert x == s[|a| + 1..] && y == s[|a| + 1..];
  }

  // ── Splitting ─────────────────────────────────────────────────────────────

  /** `str.split(sep)` for a one-character separator. */
  function Split(s: string, sep: char): (r: seq<string>)
    ensures r != []
  {
    if s == "" then [""]
    else
      var rest := Split(s[1..], sep);
      if s[0] == sep then [""] + rest else [[s[0]] + rest[0]] + rest[1..]
  }

  lemma {:induction false} SplitNoSeparator(s: string, sep: char)
    requires sep !in s
    ensures Split(s, sep) == [s]
  {
    if s != "" {
      SplitNoSeparator(s[1..], sep);
      assert [s[0]] + s[1..] == s;
    }
  }

  lemma {:induction false} SplitAtFirst(a: string, rest: string, sep: char)
    requires sep !in a
    ensures Split(a + [sep] + rest, sep) == [a] + Split(rest, sep)
  {
    var s := a + [sep] + rest;
    if a == "" {
      assert s[1..] == rest;
    } else {
      assert s[1..] == a[1..] + [sep] + rest;
      SplitAtFirst(a[1..], rest, sep);
      assert [s[0]] + a[1..] == a;
    }
  }

  lemma {:induction false} SplitPieces(s: string, sep: char)
    ensures forall piece :: piece in Split(s, sep) ==> sep !in piece
  {
    if s != "" {
      SplitPieces(s[1..], sep);
      var rest := Split(s[1..], sep);
      assert rest[0] in rest;
    }
  }

  // ── Comma-separated lists ─────────────────────────────────────────────────

  /** The characters `str.strip` removes. */
  predicate IsSpace(c: char) {
    || '\t' <= c <= '\r' || '\U{1c}' <= c <= ' ' || c == '\U{85}' || c == '\U{a0}' || c == '\U{1680}'
    || '\U{2000}' <= c <= '\U{200a}' || c == '\U{2028}' || c == '\U{2029}' || c == '\U{202f}'
    || c == '\U{205f}' || c == '\U{3000}'
  }

  function StripLeft(s: string): string {
    if s != "" && IsSpace(s[0]) then StripLeft(s[1..]) else s
  }

  function StripRight(s: string): string {
    if s != "" && IsSpace(s[|s| - 1]) then StripRight(s[..|s| - 1]) else s
  }

  function Strip(s: string): string {
    StripRight(StripLeft(s))
  }

  /** `[i.strip() for i in pieces if i.strip()]` */
  function Trimmed(pieces: seq<string>): seq<string> {
    if pieces == [] then []
    else (if Strip(pieces[0]) != "" then [Strip(pieces[0])] else []) + Trimmed(pieces[1..])
  }

  function ParseList(s: string): seq<string> {
    Trimmed(Split(s, ','))
  }

  function Join(items: seq<string>): string {
    if items == [] then "" else if |items| == 1 then items[0] else items[0] + "," + Join(items[1..])
  }

  predicate Clean(item: string) {
    item != "" && ',' !in item && !IsSpace(item[0]) && !IsSpace(item[|item| - 1])
  }

  lemma {:induction false} StripLeftEnds(s: string)
    ensures StripLeft(s) == "" || !IsSpace(StripLeft(s)[0])
    ensures forall c :: c in StripLeft(s) ==> c in s
  {
    if s != "" && IsSpace(s[0]) {
      StripLeftEnds(s[1..]);
    }
  }

  lemma {:induction false} StripRightEnds(s: string)
    ensures StripRight(s) == "" || !IsSpace(StripRight(s)[|StripRight(s)| - 1])
    ensures StripRight(s) != "" ==> StripRight(s)[0] == s[0]
    ensures forall c :: c in StripRight(s) ==> c in s
  {
    if s != "" && IsSpace(s[|s| - 1]) {
      StripRightEnds(s[..|s| - 1]);
    }
  }

  lemma StripCleans(s: string)
    requires ',' !in s
    ensures Strip(s) == "" || Clean(Strip(s))
  {
    StripLeftEnds(s);
    StripRightEnds(StripLeft(s));
  }

  lemma {:induction false} TrimmedIsClean(pieces: seq<string>)
    requires forall p :: p in pieces ==> ',' !in p
    ensures forall item :: item in Trimmed(pieces) ==> Clean(item)
  {
    if pieces != [] {
      StripCleans(pieces[0]);
      TrimmedIsClean(pieces[1..]);
    }
  }

  lemma CleanIsTrimmed(item: string)
    requires Clean(item)
    ensures Strip(item) == item
  {
  }

  lemma {:induction false} CleanItemsSurvive(items: seq<string>)
    requires forall n :: 0 <= n < |items| ==> Clean(items[n])
    ensures ParseList(Join(items)) == items
  {
    if |items| == 1 {
      SplitNoSeparator(items[0], ',');
      CleanIsTrimmed(items[0]);
      var only := [items[0]];
      assert items == only && Split(Join(items), ',') == only;
      assert Trimmed(only) == [Strip(items[0])] + Trimmed(only[1..]);
      assert only[1..] == [];
    } else if |items| > 1 {
      CleanIsTrimmed(items[0]);
      CleanItemsSurvive(items[1..]);
      assert items[0] + "," + Join(items[1..]) == items[0] + [','] + Join(items[1..]);
      SplitAtFirst(items[0], Join(items[1..]), ',');
      assert Split(Join(items), ',')[1..] == Split(Join(items[1..]), ',');
      assert items == [items[0]] + items[1..];
    } else {
      assert Split("", ',') == [""];
    }
  }

  /** Parsing undoes comma-joining exactly for items that are non-empty, trimmed and comma-free. */
  lemma {:induction false} ParseUndoesJoinExactlyWhen(items: seq<string>)
    ensures ParseList(Join(items)) == items <==> forall n :: 0 <= n < |items| ==> Clean(items[n])
  {
    if ParseList(Join(items)) == items {
      SplitPieces(Join(items), ',');
      TrimmedIsClean(Split(Join(items), ','));
    }
    if forall n :: 0 <= n < |items| ==> Clean(items[n]) {
      CleanItemsSurvive(items);
    }
  }

  /** Among ASCII characters these are tab to carriage return, the four separators and the space. */
  lemma AsciiBlanks(c: char)
    requires c < '\U{80}'
    ensures IsSpace(c) <==> c as int in {9, 10, 11, 12, 13, 28, 29, 30, 31, 32}
  {
  }

  // ── Blanks ────────────────────────────────────────────────────────────────

  predicate Blank(s: string) {
    forall n :: 0 <= n < |s| ==> IsSpace(s[n])
  }

  /** Empty, or without a blank at either end. */
  predicate Tight(s: string) {
    s == "" || (!IsSpace(s[0]) && !IsSpace(s[|s| - 1]))
  }

  lemma {:induction false} StripLeftBlanks(a: string, s: string)
    requires Blank(a) && (s == "" || !IsSpace(s[0]))
    ensures StripLeft(a + s) == s
  {
    if a == "" {
      assert a + s == s;
    } else {
      assert (a + s)[1..] == a[1..] + s;
      StripLeftBlanks(a[1..], s);
    }
  }

  lemma {:induction false} StripRightBlanks(s: string, b: string)
    requires Blank(b) && (s == "" || !IsSpace(s[|s| - 1]))
    ensures StripRight(s + b) == s
  {
    if b == "" {
      assert s + b == s;
    } else {
      assert (s + b)[..|s + b| - 1] == s + b[..|b| - 1];
      StripRightBlanks(s, b[..|b| - 1]);
    }
  }

  /** Stripping removes the blanks around a text, all of them and nothing else. */
  lemma StripRemovesBlanks(a: string, s: string, b: string)
    requires Blank(a) && Blank(b) && Tight(s)
    ensures Strip(a + s + b) == s
  {
    if s == "" {
      assert a + s + b == (a + b) + "";
      StripLeftBlanks(a + b, "");
    } else {
      assert a + s + b == a + (s + b);
      StripLeftBlanks(a, s + b);
      StripRightBlanks(s, b);
    }
  }

  /** Each item with blanks before and after it. */
  function Padded(items: seq<string>, before: seq<string>, after: seq<string>): seq<string>
    requires |items| == |before| == |after|
  {
    seq(|items|, n requires 0 <= n < |items| => before[n] + items[n] + after[n])
  }

  function NonEmpty(items: seq<string>): seq<string> {
    if items == [] then [] else (if items[0] != "" then [items[0]] else []) + NonEmpty(items[1..])
  }

  predicate Blanks(texts: seq<string>) {
    forall n :: 0 <= n < |texts| ==> Blank(texts[n])
  }

  lemma {:induction false} PaddedTrimmed(items: seq<string>, before: seq<string>, after: seq<string>)
    requires |items| == |before| == |after| && Blanks(before) && Blanks(after)
    requires forall n :: 0 <= n < |items| ==> Tight(items[n])
    ensures Trimmed(Padded(items, before, after)) == NonEmpty(items)
  {
    if items != [] {
      StripRemovesBlanks(before[0], items[0], after[0]);
      PaddedTrimmed(items[1..], before[1..], after[1..]);
      assert Padded(items, before, after)[1..] == Padded(items[1..], before[1..], after[1..]);
    }
  }

  lemma {:induction false} SplitUndoesJoin(items: seq<string>)
    requires items != [] && forall n :: 0 <= n < |items| ==> ',' !in items[n]
    ensures Split(Join(items), ',') == items
  {
    if |items| == 1 {
      SplitNoSeparator(items[0], ',');
    } else {
      SplitUndoesJoin(items[1..]);
      assert items[0] + "," + Join(items[1..]) == items[0] + [','] + Join(items[1..]);
      SplitAtFirst(items[0], Join(items[1..]), ',');
      assert items == [items[0]] + items[1..];
    }
  }

  /** A comma list is read as its non-empty items, with any blanks around them dropped. */
  lemma PaddedItemsSurvive(items: seq<string>, before: seq<string>, after: seq<string>)
    requires |items| == |before| == |after| && Blanks(before) && Blanks(after)
    requires forall n :: 0 <= n < |items| ==> Tight(items[n]) && ',' !in items[n]
    ensures ParseList(Join(Padded(items, before, after))) == NonEmpty(items)
  {
    var padded := Padded(items, before, after);
    if items == [] {
      assert ParseList("") == [];
    } else {
      forall n | 0 <= n < |items| ensures ',' !in padded[n] {
        BlankHasNoComma(before[n]);
        BlankHasNoComma(after[n]);
      }
      SplitUndoesJoin(padded);
      PaddedTrimmed(items, before, after);
    }
  }

  lemma BlankHasNoComma(s: string)
    requires Blank(s)
    ensures ',' !in s
  {
  }

  lemma {:induction false} CleanAreNonEmpty(items: seq<string>)
    requires forall n :: 0 <= n < |items| ==> Clean(items[n])
    ensures NonEmpty(items) == items
  {
    if items != [] {
      CleanAreNonEmpty(items[1..]);
    }
  }

  /** So a list of clean items, with any blanks around each, gives exactly these items. */
  lemma PaddedListIsItems(items: seq<string>, before: seq<string>, after: seq<string>)
    requires |items| == |before| == |after| && Blanks(before) && Blanks(after)
    requires forall n :: 0 <= n < |items| ==> Clean(items[n])
    ensures ParseList(Join(Padded(items, before, after))) == items
  {
    PaddedItemsSurvive(items, before, after);
    CleanAreNonEmpty(items);
  }
}
