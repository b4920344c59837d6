/**
 * Delta cursors (src/lib/sync-manager.ts:16-73): strings `<xactId>-<id>` compared as pairs of big
 * integers, with two older encodings folded into the zero transaction.
 */
module Cursor {
  import opened Common
  import opened Positions

  /** First components from here on are stale commit timestamps (src/lib/sync-config.ts:48). */
  const MAX_PLAUSIBLE_XACT_ID: nat := 1_000_000_000_000_000

  // ----- BigInt(string) ---------------------------------------------------------------------

  predicate IsSpace(c: char) {
    c in " \t\n\r" || c == '\U{000B}' || c == '\U{000C}' || c == '\U{00A0}' || c == '\U{FEFF}' || c == '\U{1680}' ||
    '\U{2000}' <= c <= '\U{200A}' || c == '\U{2028}' || c == '\U{2029}' || c == '\U{202F}' || c == '\U{205F}'
        || c == '\U{3000}'
  }

  function TrimLeft(s: string): string {
    if s != "" && IsSpace(s[0]) then TrimLeft(s[1..]) else s
  }

  function TrimRight(s: string): string {
    if s != "" && IsSpace(s[|s| - 1]) then TrimRight(s[..|s| - 1]) else s
  }

  function DigitOf(c: char): (d: Option<nat>)
    ensures d.Some? ==> d.value < 16
  {
    if '0' <= c <= '9' then Some((c - '0') as nat)
    else if 'a' <= c <= 'f' then Some((c - 'a') as nat + 10)
    else if 'A' <= c <= 'F' then Some((c - 'A') as nat + 10)
    else None
  }

  /** The value of a digit string in `base`; the empty string has none. */
  function Digits(s: string, base: nat): Option<nat> {
    if s == "" then None
    else
      var d := DigitOf(s[|s| - 1]);
      if d.None? || d.value >= base then None
      else if |s| == 1 then d
      else
        var front := Digits(s[..|s| - 1], base);
        if front.None? then None else Some(front.value * base + d.value)
  }

  /** The base a prefix announces. */
  function BaseOf(t: string): nat {
    if |t| > 2 && t[0] == '0' then
      if t[1] == 'x' || t[1] == 'X' then 16
      else if t[1] == 'o' || t[1] == 'O' then 8
      else if t[1] == 'b' || t[1] == 'B' then 2
      else 10
    else 10
  }

  /** `BigInt(s)`: `None` is the SyntaxError the callers catch. */
  function ParseBigInt(s: string): Option<int> {
    var t := TrimRight(TrimLeft(s));
    if t == "" then Some(0)
    else if BaseOf(t) != 10 then Widen(Digits(t[2..], BaseOf(t)))
    else if t[0] == '+' then Widen(Digits(t[1..], 10))
    else if t[0] == '-' then
      var n := Digits(t[1..], 10);
      if n.None? then None else Negate(n.value)
    else Widen(Digits(t, 10))
  }

  function Negate(n: int): Option<int> { Some(-n) }

  function Widen(n: Option<nat>): Option<int> {
    if n.None? then None else Some(n.value)
  }

  /** Decimal text of a natural number, as `toString` and template literals print it. */
  function Decimal(n: nat): string {
    if n < 10 then [('0' as int + n) as char] else Decimal(n / 10) + [('0' as int + n % 10) as char]
  }

  // ----- the cursor functions ---------------------------------------------------------------

  /** Index of the first `-`, or the length when there is none. */
  function DashIndex(c: string): (i: nat)
    ensures i <= |c|
    ensures i < |c| ==> c[i] == '-'
    ensures '-' !in c[..i]
  {
    if c == "" || c[0] == '-' then 0
    else
      var i := 1 + DashIndex(c[1..]);
      assert c[..i] == [c[0]] + c[1..][..i - 1];
      i
  }

  function SplitCursor(c: string): Position {
    var dash := DashIndex(c);
    if dash == |c| then
      var id := ParseBigInt(c);
      if id.None? then ZERO else Position(0, id.value)
    else
      var xact := ParseBigInt(c[..dash]);
      if xact.None? || xact.value >= MAX_PLAUSIBLE_XACT_ID then ZERO
      else
        var id := ParseBigInt(c[dash + 1..]);
        if id.None? then ZERO else Position(xact.value, id.value)
  }

  function CompareCursor(a: string, b: string): int {
    var p, q := SplitCursor(a), SplitCursor(b);
    if p.xact < q.xact then -1
    else if p.xact > q.xact then 1
    else if p.id < q.id then -1
    else if p.id > q.id then 1
    else 0
  }

  function ActionCursor(xactId: nat, id: nat): string {
    Decimal(xactId) + "-" + Decimal(id)
  }

  // ----- what they promise ------------------------------------------------------------------

  lemma {:induction false} DecimalDigits(n: nat)
    ensures Decimal(n) != ""
    ensures forall c | c in Decimal(n) :: '0' <= c <= '9'
    ensures Digits(Decimal(n), 10) == Some(n)
  {
    var last := ('0' as int + n % 10) as char;
    assert DigitOf(last) == Some(n % 10);
    if n >= 10 {
      DecimalDigits(n / 10);
      var s := Decimal(n);
      assert s[..|s| - 1] == Decimal(n / 10) && s[|s| - 1] == last;
    }
  }

  /** A string of digits takes none of the special branches of the parser. */
  lemma PlainDigitsParse(s: string)
    requires s != "" && forall c | c in s :: '0' <= c <= '9'
    ensures ParseBigInt(s) == Widen(Digits(s, 10))
  {
    hide Digits;
    assert forall k | 0 <= k < |s| :: s[k] in s;
    assert !IsSpace(s[0]) && !IsSpace(s[|s| - 1]);
    assert TrimRight(TrimLeft(s)) == s;
    assert |s| > 2 ==> s[1] in s;
  }

  /** `BigInt` reads back what a template literal printed. */
  lemma ParseDecimal(n: nat)
    ensures ParseBigInt(Decimal(n)) == Some(n)
  {
    DecimalDigits(n);
    PlainDigitsParse(Decimal(n));
  }

  lemma {:induction false} DashFound(a: string, b: string)
    requires '-' !in a
    ensures DashIndex(a + "-" + b) == |a|
  {
    var c := a + "-" + b;
    var i := DashIndex(c);
    assert forall k | 0 <= k < |a| :: c[k] == a[k] && c[k] != '-';
    assert c[|a|] == '-' && forall k | 0 <= k < i :: c[..i][k] == c[k] && c[k] != '-';
  }

  /** The server's encoding survives the client's decoding, unless it is an implausible one. */
  lemma ActionCursorRoundTrip(xactId: nat, id: nat)
    ensures SplitCursor(ActionCursor(xactId, id)) ==
            if xactId < 1_000_000_000_000_000 then Position(xactId, id) else ZERO
  {
    DecimalDigits(xactId);
    DashFound(Decimal(xactId), Decimal(id));
    ParseDecimal(xactId);
    ParseDecimal(id);
    var c := ActionCursor(xactId, id);
    assert c[..|Decimal(xactId)|] == Decimal(xactId);
    assert c[|Decimal(xactId)| + 1..] == Decimal(id);
  }

  /** Old `<id>` cursors stand for transaction zero, which every real transaction comes after. */
  lemma LegacyCursor(id: nat)
    ensures SplitCursor(Decimal(id)) == Position(0, id)
  {
    DecimalDigits(id);
    ParseDecimal(id);
    assert forall k | 0 <= k < |Decimal(id)| :: Decimal(id)[k] in Decimal(id);
  }

  /** `compareCursor` decides the lexicographic order of the decoded pairs, in all three outcomes. */
  lemma CompareIsLexicographic(a: string, b: string)
    ensures CompareCursor(a, b) > 0 <==> Before(SplitCursor(b), SplitCursor(a))
    ensures CompareCursor(a, b) < 0 <==> Before(SplitCursor(a), SplitCursor(b))
    ensures CompareCursor(a, b) == 0 <==> SplitCursor(a) == SplitCursor(b)
    ensures CompareCursor(a, b) == -CompareCursor(b, a)
  {
  }

  lemma {:induction false} DigitsNeedNoDash(s: string, base: nat)
    requires '-' in s
    ensures Digits(s, base).None?
  {
    if s[|s| - 1] != '-' && |s| > 1 {
      assert s == s[..|s| - 1] + [s[|s| - 1]];
      DigitsNeedNoDash(s[..|s| - 1], base);
    }
  }

  lemma {:induction false} TrimKeeps(s: string)
    ensures forall c | c in TrimLeft(s) :: c in s
    ensures forall c | c in TrimRight(s) :: c in s
    decreases |s|
  {
    if s != "" {
      if IsSpace(s[0]) { TrimKeeps(s[1..]); }
      if IsSpace(s[|s| - 1]) { TrimKeeps(s[..|s| - 1]); }
    }
  }

  /** Only a minus sign makes a number negative. */
  lemma NoDashNoSign(s: string)
    requires '-' !in s
    ensures ParseBigInt(s).Some? ==> ParseBigInt(s).value >= 0
  {
    TrimKeeps(s);
    TrimKeeps(TrimLeft(s));
    var t := TrimRight(TrimLeft(s));
    assert t != "" ==> t[0] in t;
    hide TrimLeft, TrimRight, Digits;
  }

  /** No cursor decodes to a transaction below zero or at or above the plausibility ceiling. */
  lemma SplitIsPlausible(c: string)
    ensures 0 <= SplitCursor(c).xact < MAX_PLAUSIBLE_XACT_ID
  {
    hide ParseBigInt, DashIndex;
    NoDashNoSign(c[..DashIndex(c)]);
  }

  /** A stale huge cursor never pins the maximum: the first real action overtakes it. */
  lemma StaleCursorIsOvertaken(stale: string, xactId: nat, id: nat)
    requires DashIndex(stale) < |stale|
    requires var first := ParseBigInt(stale[..DashIndex(stale)]);
             first.None? || first.value >= MAX_PLAUSIBLE_XACT_ID
    requires 0 < xactId < MAX_PLAUSIBLE_XACT_ID
    ensures CompareCursor(ActionCursor(xactId, id), stale) == 1
  {
    ActionCursorRoundTrip(xactId, id);
  }

  // ----- the other numerals a stored text may hold --------------------------------------------

  /** A digit below sixteen, in small or capital letters. */
  function DigitText(d: nat, capital: bool): char
    requires d < 16
  {
    if d < 10 then "0123456789"[d] else if capital then "ABCDEF"[d - 10] else "abcdef"[d - 10]
  }

  /** The numeral of `n` in a base up to sixteen. */
  function Numeral(n: nat, base: nat, capital: bool): string
    requires 2 <= base <= 16
  {
    if n < base then [DigitText(n, capital)]
    else
      LessThan(n, base);
      Numeral(n / base, base, capital) + [DigitText(n % base, capital)]
  }

  lemma LessThan(n: nat, base: nat)
    requires 2 <= base <= n
    ensures 0 <= n / base < n && 0 <= n % base < base && n == (n / base) * base + n % base
  {
    var q := n / base;
    assert q * base <= n;
    if q >= n {
      Product(q, base);
    }
  }

  lemma Product(q: nat, base: nat)
    requires 2 <= base && 0 < q
    ensures q * base > q
  {
  }

  lemma DigitReads(d: nat, capital: bool)
    requires d < 16
    ensures DigitOf(DigitText(d, capital)) == Some(d) && !IsSpace(DigitText(d, capital))
  {
  }

  lemma DigitsAppended(front: string, last: char, base: nat)
    requires front != "" && DigitOf(last).Some? && DigitOf(last).value < base
    ensures Digits(front + [last], base) ==
            if Digits(front, base).None? then None else Some(Digits(front, base).value * base + DigitOf(last).value)
  {
    var s := front + [last];
    assert s[..|s| - 1] == front && s[|s| - 1] == last;
  }

  predicate Reads(text: string, base: nat, n: nat) {
    text != "" && Digits(text, base) == Some(n) && forall c | c in text :: !IsSpace(c)
  }

  lemma OneMoreDigit(front: string, q: nat, d: nat, base: nat, capital: bool)
    requires base <= 16 && d < base && Reads(front, base, q)
    ensures Reads(front + [DigitText(d, capital)], base, q * base + d)
  {
    DigitReads(d, capital);
    hide Digits, DigitOf, DigitText, IsSpace;
    DigitsAppended(front, DigitText(d, capital), base);
  }

  lemma {:induction false} NumeralReads(n: nat, base: nat, capital: bool)
    requires 2 <= base <= 16
    ensures Reads(Numeral(n, base, capital), base, n)
  {
    if n < base {
      DigitReads(n, capital);
    } else {
      LessThan(n, base);
      NumeralReads(n / base, base, capital);
      hide Reads;
      OneMoreDigit(Numeral(n / base, base, capital), n / base, n % base, base, capital);
    }
  }

  lemma PrefixedParses(letter: char, base: nat, digits: string)
    requires digits != "" && forall c | c in digits :: !IsSpace(c)
    requires base == match letter
                     case 'x' => 16 case 'X' => 16 case 'o' => 8 case 'O' => 8 case 'b' => 2 case 'B' => 2 case _ => 0
    requires base > 0
    ensures ParseBigInt(['0', letter] + digits) == Widen(Digits(digits, base))
  {
    var s := ['0', letter] + digits;
    assert s[0] == '0' && s[1] == letter && s[|s| - 1] == digits[|digits| - 1] && digits[|digits| - 1] in digits;
    NothingToTrim(s);
    hide Digits, TrimLeft, TrimRight, IsSpace;
    assert s[2..] == digits;
  }

  /** Hexadecimal, octal and binary numerals, in capitals or not, and signed decimal ones. */
  lemma NumeralsParse(n: nat, capital: bool)
    ensures ParseBigInt(['0', 'x'] + Numeral(n, 16, capital)) == Some(n)
    ensures ParseBigInt(['0', 'X'] + Numeral(n, 16, capital)) == Some(n)
    ensures ParseBigInt(['0', 'o'] + Numeral(n, 8, capital)) == Some(n)
    ensures ParseBigInt(['0', 'O'] + Numeral(n, 8, capital)) == Some(n)
    ensures ParseBigInt(['0', 'b'] + Numeral(n, 2, capital)) == Some(n)
    ensures ParseBigInt(['0', 'B'] + Numeral(n, 2, capital)) == Some(n)
  {
    NumeralReads(n, 16, capital);
    NumeralReads(n, 8, capital);
    NumeralReads(n, 2, capital);
    hide Digits, Numeral, ParseBigInt, IsSpace;
    PrefixedParses('x', 16, Numeral(n, 16, capital));
    PrefixedParses('X', 16, Numeral(n, 16, capital));
    PrefixedParses('o', 8, Numeral(n, 8, capital));
    PrefixedParses('O', 8, Numeral(n, 8, capital));
    PrefixedParses('b', 2, Numeral(n, 2, capital));
    PrefixedParses('B', 2, Numeral(n, 2, capital));
  }

  lemma NothingToTrim(s: string)
    requires s != "" && !IsSpace(s[0]) && !IsSpace(s[|s| - 1])
    ensures TrimRight(TrimLeft(s)) == s
  {
  }

  lemma PlusParses(d: string)
    requires d != "" && !IsSpace(d[|d| - 1])
    ensures ParseBigInt("+" + d) == Widen(Digits(d, 10))
  {
    var s := "+" + d;
    assert s[|s| - 1] == d[|d| - 1] && s[0] == '+' && s[1..] == d && |s| >= 2;
    NothingToTrim(s);
    hide Digits, TrimLeft, TrimRight, IsSpace;
  }

  lemma MinusParses(d: string)
    requires d != "" && !IsSpace(d[|d| - 1]) && Digits(d, 10).Some?
    ensures ParseBigInt("-" + d) == Negate(Digits(d, 10).value)
  {
    var s := "-" + d;
    assert s[|s| - 1] == d[|d| - 1] && s[0] == '-' && s[1..] == d && |s| >= 2;
    NothingToTrim(s);
    hide Digits, TrimLeft, TrimRight, IsSpace;
  }

  lemma SignedParse(n: nat)
    ensures ParseBigInt("+" + Decimal(n)) == Some(n)
    ensures var below: int := 0 - n; ParseBigInt("-" + Decimal(n)) == Some(below)
  {
    DecimalDigits(n);
    var d := Decimal(n);
    assert d[|d| - 1] in d && !IsSpace(d[|d| - 1]);
    hide Digits, ParseBigInt, Decimal, IsSpace;
    PlusParses(d);
    MinusParses(d);
  }

  /** White space and line ends, as ECMAScript lists them. */
  ghost predicate WhiteSpace(c: char) {
    || c == '\t' || c == '\n' || c == '\U{000B}' || c == '\U{000C}' || c == '\r' || c == ' '
    || c == '\U{00A0}' || c == '\U{1680}' || c == '\U{2028}' || c == '\U{2029}' || c == '\U{202F}'
    || c == '\U{205F}' || c == '\U{3000}' || c == '\U{FEFF}'
    || (0x2000 <= c as int <= 0x200A)
  }

  lemma BlanksAlone(blanks: string)
    requires forall c | c in blanks :: WhiteSpace(c)
    ensures ParseBigInt(blanks) == Some(0)
  {
    TrimsLeft(blanks, "");
    NothingLeft();
    assert blanks + "" == blanks;
    hide TrimLeft, TrimRight, Digits, IsSpace;
  }

  lemma TrimsAround(before: string, d: string, after: string)
    requires (forall c | c in before :: WhiteSpace(c)) && forall c | c in after :: WhiteSpace(c)
    requires d != "" && !IsSpace(d[0]) && !IsSpace(d[|d| - 1])
    ensures TrimRight(TrimLeft(before + d + after)) == TrimRight(TrimLeft(d)) == d
  {
    NothingToTrim(d);
    TrimsLeft(before, d + after);
    TrimsRight(d, after);
    assert before + (d + after) == before + d + after;
    hide TrimLeft, TrimRight;
  }

  /** Blanks around a number do not matter, and blanks alone are zero; nothing else is skipped. */
  lemma {:induction false} BlanksAreTrimmed(before: string, n: nat, after: string)
    requires (forall c | c in before :: WhiteSpace(c)) && forall c | c in after :: WhiteSpace(c)
    ensures ParseBigInt(before + Decimal(n) + after) == Some(n) && ParseBigInt(before) == Some(0)
  {
    BlanksAlone(before);
    DecimalDigits(n);
    ParseDecimal(n);
    var d := Decimal(n);
    assert d[0] in d && d[|d| - 1] in d;
    TrimsAround(before, d, after);
    hide TrimLeft, TrimRight, Digits, Decimal, IsSpace, WhiteSpace;
  }

  lemma NothingLeft()
    ensures TrimRight("") == ""
  {
  }

  lemma {:induction false} TrimsLeft(before: string, rest: string)
    requires forall c | c in before :: WhiteSpace(c)
    requires rest == "" || !WhiteSpace(rest[0])
    ensures TrimLeft(before + rest) == rest
  {
    if before == "" {
      assert before + rest == rest;
    } else {
      assert (before + rest)[1..] == before[1..] + rest && before[0] in before;
      TrimsLeft(before[1..], rest);
    }
  }

  lemma {:induction false} TrimsRight(rest: string, after: string)
    requires forall c | c in after :: WhiteSpace(c)
    requires rest != "" && !WhiteSpace(rest[|rest| - 1])
    ensures TrimRight(rest + after) == rest
  {
    var s := rest + after;
    if after == "" {
      assert s == rest;
    } else {
      var n := |after| - 1;
      assert s[..|s| - 1] == rest + after[..n] && s[|s| - 1] == after[n] && after[n] in after;
      TrimsRight(rest, after[..n]);
    }
  }

  /** A text is no number unless it is made of digits, after its sign or prefix. */
  lemma {:induction false} DigitsAreDigits(s: string, base: nat)
    requires Digits(s, base).Some?
    ensures s != "" && forall c | c in s :: DigitOf(c).Some? && DigitOf(c).value < base
  {
    if |s| > 1 {
      DigitsAreDigits(s[..|s| - 1], base);
      assert s == s[..|s| - 1] + [s[|s| - 1]];
    }
  }

  lemma NoOtherDigits(c: char)
    ensures DigitOf(c).Some? <==> '0' <= c <= '9' || 'a' <= c <= 'f' || 'A' <= c <= 'F'
    ensures '0' <= c <= '9' ==> DigitOf(c) == Some(c as int - '0' as int)
  {
  }

  // ----- advancing --------------------------------------------------------------------------

  /** `if (compareCursor(incoming, c) > 0) c = incoming`: the step every cursor takes. */
  function Advance(c: string, incoming: string): string {
    if CompareCursor(incoming, c) > 0 then incoming else c
  }

  /** Keeping the later text keeps the later position, so the protocol modules work on positions. */
  lemma AdvanceDecodes(c: string, incoming: string)
    ensures SplitCursor(Advance(c, incoming)) == Later(SplitCursor(c), SplitCursor(incoming))
  {
  }

  /** Folding a batch of action cursors into a stored text, as `doApplyActions` does with `maxId`. */
  function AdvanceThrough(c: string, incoming: seq<Position>): string
    requires forall p | p in incoming :: 0 <= p.xact && 0 <= p.id
    decreases incoming
  {
    if incoming == [] then c
    else AdvanceThrough(Advance(c, ActionCursor(incoming[0].xact, incoming[0].id)), incoming[1..])
  }

  /** The text fold decodes to the position fold, for every text the client may have stored. */
  lemma {:induction false} AdvanceThroughDecodes(c: string, incoming: seq<Position>)
    requires forall p | p in incoming :: 0 <= p.xact < MAX_PLAUSIBLE_XACT_ID && 0 <= p.id
    ensures SplitCursor(AdvanceThrough(c, incoming)) == LaterOf(SplitCursor(c), incoming)
    decreases incoming
  {
    hide SplitCursor, CompareCursor, Advance, ActionCursor;
    if incoming != [] {
      var p := incoming[0];
      ActionCursorRoundTrip(p.xact, p.id);
      AdvanceDecodes(c, ActionCursor(p.xact, p.id));
      AdvanceThroughDecodes(Advance(c, ActionCursor(p.xact, p.id)), incoming[1..]);
    }
  }
}
