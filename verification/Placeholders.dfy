/**
 Client-side statements: the loop, the same in three places of the drivers, that
 copies a query into a growing buffer and puts a text in place of each '?'.
 */
module Placeholders {
  import opened CStrings
  import opened Words32

  // ----- The texts -----

  function Digit(d: nat): char
    requires d < 10
  {
    "0123456789"[d]
  }

  function Decimal(n: nat): string {
    if n < 10 then [Digit(n)] else Decimal(n / 10) + [Digit(n % 10)]
  }

  function SignedDecimal(n: int): string {
    if n < 0 then "-" + Decimal(-n) else Decimal(n)
  }

  /** An unsigned int as "%d" prints it. */
  function PrintedAsInt(u: nat): string {
    SignedDecimal(if u < 0x8000_0000 then u else u - 0x1_0000_0000)
  }

  datatype Time = Time(year: u32, month: u32, day: u32, hour: u32, minute: u32, second: u32)

  /** A bound parameter. What "%f" makes of a floating-point number is given as text. */
  datatype Param =
    | Null
    | Integer(value: int)
    | Float(text: string)
    | Chars(chars: string)
    | Date(tm: Time)
    | TimeOfDay(tm: Time)
    | DateTime(tm: Time)
    | Untyped

  function DateText(tm: Time): string {
    PrintedAsInt(tm.year) + "-" + PrintedAsInt(tm.month) + "-" + PrintedAsInt(tm.day)
  }

  function TimeText(tm: Time): string {
    PrintedAsInt(tm.hour) + ":" + PrintedAsInt(tm.minute) + ":" + PrintedAsInt(tm.second)
  }

  function ValueText(p: Param): string {
    match p
    case Null => "NULL"
    case Integer(value) => SignedDecimal(value)
    case Float(text) => text
    case Chars(chars) => "'" + chars + "'"
    case Date(tm) => "'" + DateText(tm) + "'"
    case TimeOfDay(tm) => "'" + TimeText(tm) + "'"
    case DateTime(tm) => "'" + DateText(tm) + " " + TimeText(tm) + "'"
    case Untyped => ""
  }

  /** Where the texts come from: numbered placeholders, or bound values. */
  datatype Source = Numbered | Bound(params: seq<Param>)

  predicate Has(src: Source, marks: nat) {
    src.Bound? ==> marks <= |src.params|
  }

  /** The text for the k-th '?', counting from 0. */
  function TextOf(src: Source, k: nat): string
    requires Has(src, k + 1)
  {
    match src
    case Numbered => "$" + Decimal(k + 1)
    case Bound(params) => ValueText(params[k])
  }

  // ----- The result -----

  function Marks(query: string): nat {
    if query == "" then 0 else Marks(query[..|query| - 1]) + if query[|query| - 1] == '?' then 1 else 0
  }

  function Substituted(query: string, src: Source): string
    requires Has(src, Marks(query))
  {
    if query == "" then ""
    else
      var prefix := query[..|query| - 1];
      Substituted(prefix, src) +
      if query[|query| - 1] == '?' then TextOf(src, Marks(prefix)) else [query[|query| - 1]]
  }

  lemma {:induction false} MarksAdd(a: string, b: string)
    ensures Marks(a + b) == Marks(a) + Marks(b)
  {
    if b == "" {
      assert a + b == a;
    } else {
      assert (a + b)[..|a + b| - 1] == a + b[..|b| - 1];
      MarksAdd(a, b[..|b| - 1]);
    }
  }

  lemma {:induction false} PlainText(a: string, b: string, src: Source)
    requires Marks(b) == 0 && Has(src, Marks(a))
    ensures Marks(a + b) == Marks(a) && Substituted(a + b, src) == Substituted(a, src) + b
  {
    MarksAdd(a, b);
    if b == "" {
      assert a + b == a;
    } else {
      var c := b[..|b| - 1];
      assert (a + b)[..|a + b| - 1] == a + c;
      PlainText(a, c, src);
      assert Substituted(a + b, src) == (Substituted(a, src) + c) + [b[|b| - 1]];
      assert b == c + [b[|b| - 1]];
    }
  }

  lemma Mark(a: string, src: Source)
    requires Has(src, Marks(a) + 1)
    ensures Marks(a + "?") == Marks(a) + 1
    ensures Substituted(a + "?", src) == Substituted(a, src) + TextOf(src, Marks(a))
  {
    assert (a + "?")[..|a|] == a;
  }

  /** Pieces of a query with '?' between them, and with the texts between them. */
  function WithMarks(pieces: seq<string>): string
    requires |pieces| > 0
  {
    if |pieces| == 1 then pieces[0]
    else WithMarks(pieces[..|pieces| - 1]) + "?" + pieces[|pieces| - 1]
  }

  function WithTexts(pieces: seq<string>, src: Source): string
    requires |pieces| > 0 && Has(src, |pieces| - 1)
  {
    if |pieces| == 1 then pieces[0]
    else WithTexts(pieces[..|pieces| - 1], src) + TextOf(src, |pieces| - 2) + pieces[|pieces| - 1]
  }

  lemma NoText(src: Source)
    ensures Marks("") == 0 && Substituted("", src) == ""
  {
  }

  /** The i-th '?' is replaced by the i-th text, and nothing else changes. */
  lemma {:induction false} EachMarkReplaced(pieces: seq<string>, src: Source)
    requires |pieces| > 0 && Has(src, |pieces| - 1)
    requires forall i :: 0 <= i < |pieces| ==> Marks(pieces[i]) == 0
    ensures Marks(WithMarks(pieces)) == |pieces| - 1
    ensures Substituted(WithMarks(pieces), src) == WithTexts(pieces, src)
  {
    hide TextOf, Substituted, Marks;
    NoText(src);
    var last := pieces[|pieces| - 1];
    if |pieces| == 1 {
      PlainText("", last, src);
      assert "" + last == last;
    } else {
      var before := WithMarks(pieces[..|pieces| - 1]);
      EachMarkReplaced(pieces[..|pieces| - 1], src);
      Mark(before, src);
      PlainText(before + "?", last, src);
    }
  }

  /** Different '?' get different numbers. */
  lemma {:induction false} DecimalInjective(m: nat, n: nat)
    requires Decimal(m) == Decimal(n)
    ensures m == n
  {
    DecimalLength(m);
    DecimalLength(n);
    if m >= 10 && n >= 10 {
      var a, b := Decimal(m), Decimal(n);
      assert a[..|a| - 1] == Decimal(m / 10) && b[..|b| - 1] == Decimal(n / 10);
      DecimalInjective(m / 10, n / 10);
      assert a[|a| - 1] == Digit(m % 10) && b[|b| - 1] == Digit(n % 10);
      DigitInjective(m % 10, n % 10);
    } else if m < 10 && n < 10 {
      assert Decimal(m)[0] == Digit(m) && Decimal(n)[0] == Digit(n);
      DigitInjective(m, n);
    }
  }

  lemma DigitInjective(d: nat, e: nat)
    requires d < 10 && e < 10 && Digit(d) == Digit(e)
    ensures d == e
  {
  }

  lemma {:induction false} DecimalLength(n: nat)
    ensures |Decimal(n)| > 0 && (n >= 10 ==> |Decimal(n)| > 1)
  {
    if n >= 10 { DecimalLength(n / 10); }
  }

  lemma NumbersDiffer(i: nat, k: nat)
    requires TextOf(Numbered, i) == TextOf(Numbered, k)
    ensures i == k
  {
    assert TextOf(Numbered, i)[1..] == Decimal(i + 1) && TextOf(Numbered, k)[1..] == Decimal(k + 1);
    DecimalInjective(i + 1, k + 1);
  }

  lemma {:induction false} DecimalIsCString(n: nat)
    ensures CString(Decimal(n))
  {
    if n >= 10 { DecimalIsCString(n / 10); }
  }

  /** The result ends where the code says it does: no text brings in a NUL. */
  lemma {:induction false} SubstitutedIsCString(query: string, src: Source)
    requires CString(query) && Has(src, Marks(query))
    requires src.Bound? ==> forall p :: p in src.params ==>
      (p.Float? ==> CString(p.text)) && (p.Chars? ==> CString(p.chars))
    ensures CString(Substituted(query, src))
  {
    if query != "" {
      var n := |query| - 1;
      SubstitutedIsCString(query[..n], src);
      if query[n] == '?' { TextIsCString(src, Marks(query[..n])); }
    }
  }

  lemma TextIsCString(src: Source, k: nat)
    requires Has(src, k + 1)
    requires src.Bound? ==> forall p :: p in src.params ==>
      (p.Float? ==> CString(p.text)) && (p.Chars? ==> CString(p.chars))
    ensures CString(TextOf(src, k))
  {
    match src
    case Numbered => DecimalIsCString(k + 1);
    case Bound(params) =>
      match params[k]
      case Integer(value) => IntegerIsCString(value);
      case Date(tm) => DateIsCString(tm);
      case TimeOfDay(tm) => TimeIsCString(tm);
      case DateTime(tm) =>
        DateIsCString(tm);
        TimeIsCString(tm);
      case _ =>
  }

  lemma IntegerIsCString(value: int)
    ensures CString(SignedDecimal(value))
  {
    DecimalIsCString(if value < 0 then -value else value);
  }

  lemma DateIsCString(tm: Time)
    ensures CString(DateText(tm))
  {
    forall u: u32 ensures CString(PrintedAsInt(u)) {
      IntegerIsCString(if u < 0x8000_0000 then u else u - 0x1_0000_0000);
    }
  }

  lemma TimeIsCString(tm: Time)
    ensures CString(TimeText(tm))
  {
    forall u: u32 ensures CString(PrintedAsInt(u)) {
      IntegerIsCString(if u < 0x8000_0000 then u else u - 0x1_0000_0000);
    }
  }

  // ----- What the texts say -----

  /** The value of a row of digits. */
  function ReadDigits(s: string): int {
    if s == "" then 0 else 10 * ReadDigits(s[..|s| - 1]) + (s[|s| - 1] as int - '0' as int)
  }

  predicate AllDigits(s: string) {
    s != "" && forall c :: c in s ==> '0' <= c <= '9'
  }

  lemma DigitReads(d: nat)
    requires d < 10
    ensures '0' <= Digit(d) <= '9' && Digit(d) as int - '0' as int == d
  {
  }

  lemma {:induction false} DecimalReads(n: nat)
    ensures AllDigits(Decimal(n)) && ReadDigits(Decimal(n)) == n
    ensures n > 0 ==> Decimal(n)[0] != '0'
  {
    DigitReads(n % 10);
    hide Digit, ReadDigits, AllDigits;
    if n >= 10 {
      DecimalReads(n / 10);
      OneDigitMore(Decimal(n / 10), Digit(n % 10));
    } else {
      DigitReads(n);
      OneDigitMore("", Digit(n));
      assert "" + [Digit(n)] == [Digit(n)];
    }
  }

  lemma OneDigitMore(s: string, c: char)
    requires '0' <= c <= '9' && (s == "" || AllDigits(s))
    ensures AllDigits(s + [c]) && ReadDigits("") == 0
    ensures ReadDigits(s + [c]) == 10 * ReadDigits(s) + (c as int - '0' as int)
  {
    assert (s + [c])[..|s|] == s;
  }

  /** s is a number in decimal digits, with a sign if it is negative. */
  predicate Says(s: string, n: int) {
    if n < 0 then s != "" && s[0] == '-' && AllDigits(s[1..]) && ReadDigits(s[1..]) == -n
    else AllDigits(s) && ReadDigits(s) == n
  }

  lemma SignedDecimalSays(n: int)
    ensures Says(SignedDecimal(n), n)
  {
    DecimalReads(if n < 0 then -n else n);
    hide Decimal, ReadDigits, AllDigits;
    if n < 0 { assert SignedDecimal(n)[1..] == Decimal(-n); }
  }

  /** The signed 32-bit integer with the same bits. */
  ghost predicate SaysAsInt(s: string, u: u32) {
    exists n: int ::
      -0x8000_0000 <= n < 0x8000_0000 && (n == u || n == u - 0x1_0000_0000) && Says(s, n)
  }

  lemma PrintedSays(u: u32)
    ensures SaysAsInt(PrintedAsInt(u), u)
  {
    SignedDecimalSays(if u < 0x8000_0000 then u else u - 0x1_0000_0000);
    hide Says, SignedDecimal;
  }

  /** Three numbers with a separator between them. */
  ghost predicate ThreeSay(s: string, separator: char, a: u32, b: u32, c: u32) {
    exists x: string, y: string, z: string ::
      s == x + [separator] + y + [separator] + z && SaysAsInt(x, a) && SaysAsInt(y, b) && SaysAsInt(z, c)
  }

  /** A text between quotes. */
  function Quoted(s: string): string {
    ['\''] + s + ['\'']
  }

  ghost predicate SaysDate(s: string, tm: Time) {
    ThreeSay(s, '-', tm.year, tm.month, tm.day)
  }

  ghost predicate SaysTime(s: string, tm: Time) {
    ThreeSay(s, ':', tm.hour, tm.minute, tm.second)
  }

  /** What the text of a value says. */
  ghost predicate SaysValue(s: string, p: Param) {
    match p
    case Null => s == "NULL"
    case Integer(value) => Says(s, value)
    case Float(text) => s == text
    case Chars(chars) => s == Quoted(chars)
    case Date(tm) => exists d: string :: s == Quoted(d) && SaysDate(d, tm)
    case TimeOfDay(tm) => exists t: string :: s == Quoted(t) && SaysTime(t, tm)
    case DateTime(tm) => exists d: string, t: string :: s == Quoted(d + " " + t) && SaysDate(d, tm) && SaysTime(t, tm)
    case Untyped => s == ""
  }

  lemma DateAndTimeSay(tm: Time)
    ensures SaysDate(DateText(tm), tm) && SaysTime(TimeText(tm), tm)
  {
    forall u: u32 ensures SaysAsInt(PrintedAsInt(u), u) { PrintedSays(u); }
    hide SaysAsInt, PrintedAsInt;
  }

  /** Every value's text says the value: the fields of dates and times in their order, with
      their separators, and quotes where SQL wants them. */
  lemma ValueTextSays(p: Param)
    ensures SaysValue(ValueText(p), p)
  {
    match p
    case Integer(value) => SignedDecimalSays(value);
    case Date(tm) =>
      DateAndTimeSay(tm);
      hide SaysDate, DateText;
      assert ValueText(p) == Quoted(DateText(tm));
    case TimeOfDay(tm) =>
      DateAndTimeSay(tm);
      hide SaysTime, TimeText;
      assert ValueText(p) == Quoted(TimeText(tm));
    case DateTime(tm) =>
      DateAndTimeSay(tm);
      hide SaysDate, SaysTime, DateText, TimeText;
      assert ValueText(p) == Quoted(DateText(tm) + " " + TimeText(tm));
    case _ =>
  }

  /** The text for the k-th '?' is its number, counted from 1, or says the k-th value. */
  lemma TextSays(src: Source, k: nat)
    requires Has(src, k + 1)
    ensures match src
      case Numbered => |TextOf(src, k)| > 1 && TextOf(src, k)[0] == '$' && Says(TextOf(src, k)[1..], k + 1)
      case Bound(params) => SaysValue(TextOf(src, k), params[k])
  {
    match src
    case Numbered =>
      DecimalReads(k + 1);
      assert TextOf(src, k)[1..] == Decimal(k + 1);
    case Bound(params) => ValueTextSays(params[k]);
  }

  // ----- The buffer -----

  /** snprintf into what is left of a buffer: writes what fits, always with a final
      NUL, and returns the length of the whole text. */
  method SnPrintf(buf: array<char>, at: nat, text: string) returns (n: nat)
    requires at < buf.Length
    modifies buf
    ensures n == |text|
    ensures buf[..at] == old(buf[..at])
    ensures n < buf.Length - at ==> buf[..at + n] == old(buf[..at]) + text && buf[at + n] == '\0'
  {
    n := |text|;
    var fits := if |text| < buf.Length - at then |text| else buf.Length - at - 1;
    var i := 0;
    while i < fits
      invariant 0 <= i <= fits
      invariant buf[..at] == old(buf[..at])
      invariant buf[at..at + i] == text[..i]
    {
      ghost var done := buf[at..at + i];
      buf[at + i] := text[i];
      assert buf[at..at + i + 1] == done + [text[i]];
      i := i + 1;
    }
    buf[at + i] := '\0';
    assert buf[..at + i] == buf[..at] + buf[at..at + i];
  }

  method PrintValue(p: Param, buf: array<char>, at: nat) returns (n: int)
    requires at < buf.Length
    modifies buf
    ensures n == if |ValueText(p)| < buf.Length - at then |ValueText(p)| else -1
    ensures buf[..at] == old(buf[..at])
    ensures n >= 0 ==> buf[..at + n] == old(buf[..at]) + ValueText(p)
  {
    if p.Untyped? {
      assert ValueText(p) == "";
      return 0;
    }
    n := SnPrintf(buf, at, ValueText(p));
    if n >= buf.Length - at {
      n := -1;
    }
  }

  /** Writes the text of the k-th '?' if it fits. */
  method PutText(src: Source, k: nat, buf: array<char>, at: nat) returns (n: int)
    requires at < buf.Length && Has(src, k + 1)
    modifies buf
    ensures n == if |TextOf(src, k)| < buf.Length - at then |TextOf(src, k)| else -1
    ensures buf[..at] == old(buf[..at])
    ensures n >= 0 ==> buf[..at + n] == old(buf[..at]) + TextOf(src, k)
  {
    match src
    case Numbered =>
      n := SnPrintf(buf, at, "$" + Decimal(k + 1));
      if n >= buf.Length - at {
        n := -1;
      }
    case Bound(params) =>
      n := PrintValue(params[k], buf, at);
  }

  /** realloc: a buffer of the new length that starts with the first keep characters. */
  method Realloc(buf: array<char>, keep: nat, buflen: nat) returns (bigger: array<char>)
    requires keep <= buf.Length && keep <= buflen
    ensures fresh(bigger) && bigger.Length == buflen && bigger[..keep] == buf[..keep]
  {
    bigger := new char[buflen];
    var i := 0;
    while i < keep
      invariant 0 <= i <= keep
      invariant bigger[..i] == buf[..i]
    {
      bigger[i] := buf[i];
      i := i + 1;
    }
  }

  /** The retries for one '?': the buffer grows until the text fits behind the first j
      characters. */
  method PutMark(src: Source, k: nat, old_buf: array<char>, j: nat, realloc: bool)
    returns (buf: array<char>, n: nat)
    requires Has(src, k + 1)
    requires if old_buf.Length == 0 then j == 0 && realloc else j < old_buf.Length
    modifies old_buf
    ensures buf == old_buf || fresh(buf)
    ensures j + n < buf.Length && n == |TextOf(src, k)|
    ensures buf[..j + n] == old(old_buf[..j]) + TextOf(src, k)
  {
    buf := old_buf;
    var buflen, need_realloc, res := buf.Length, realloc, -1;
    ghost var text, before := TextOf(src, k), buf[..j];
    while true
      invariant (buf == old_buf || fresh(buf)) && buf.Length == buflen
      invariant if buflen == 0 then j == 0 && need_realloc else j < buflen
      invariant buf[..j] == before
      decreases j + |text| + 2 - buflen, if need_realloc then 0 else 1
    {
      if j + 1 >= buflen || need_realloc {
        buflen := if buflen > 0 then buflen * 2 else 256;
        buf := Realloc(buf, j, buflen);
        need_realloc := false;
      }
      res := PutText(src, k, buf, j);
      if res >= 0 {
        break;
      }
      need_realloc := true;
    }
    n := res;
  }

  /** The head of the loop, for a character that is copied as it is. */
  method PutChar(c: char, old_buf: array<char>, j: nat, realloc: bool) returns (buf: array<char>)
    requires if old_buf.Length == 0 then j == 0 && realloc else j < old_buf.Length
    modifies old_buf
    ensures buf == old_buf || fresh(buf)
    ensures j + 1 < buf.Length && buf[..j + 1] == old(old_buf[..j]) + [c]
  {
    buf := old_buf;
    ghost var before := buf[..j];
    if j + 1 >= buf.Length || realloc {
      buf := Realloc(buf, j, if buf.Length > 0 then buf.Length * 2 else 256);
    }
    buf[j] := c;
    assert buf[..j + 1] == before + [c];
  }

  /** The loop: j characters are written, all of them below the end of the buffer.
      There is a place for the final NUL if and only if the query is not empty: for an
      empty one the loop allocates nothing, and the source writes the NUL all the same. */
  method Expand(query: string, src: Source) returns (buf: array<char>, j: nat, vcnt: nat, room: bool)
    requires Has(src, Marks(query))
    ensures fresh(buf) && j <= buf.Length
    ensures buf[..j] == Substituted(query, src)
    ensures vcnt == Marks(query)
    ensures room == (j < buf.Length) == (|query| > 0)
    ensures room ==> buf[j] == '\0'
  {
    assert Has(src, Marks(query[..0])) && Marks(query[..0]) == 0 && Substituted(query[..0], src) == "";
    hide Marks, Substituted, TextOf, Has;
    buf := new char[0];
    var need_realloc := true;
    var i := 0;
    j, vcnt := 0, 0;
    while i < |query|
      invariant 0 <= i <= |query|
      invariant fresh(buf)
      invariant Marks(query[..i]) == vcnt && Has(src, Marks(query[..i]))
      invariant if buf.Length == 0 then i == 0 == j && need_realloc else j < buf.Length && !need_realloc
      invariant buf.Length == 0 <==> i == 0
      invariant j <= buf.Length && buf[..j] == Substituted(query[..i], src)
    {
      NextCharacter(query, src, i);
      if query[i] != '?' {
        buf := PutChar(query[i], buf, j, need_realloc);
        j := j + 1;
      } else {
        var n: nat;
        buf, n := PutMark(src, vcnt, buf, j, need_realloc);
        j := j + n;
        vcnt := vcnt + 1;
      }
      need_realloc := false;
      i := i + 1;
    }
    assert query[..i] == query;
    ghost var done := buf[..j];
    room := j < buf.Length;
    if room {
      buf[j] := '\0';
    }
    assert buf[..j] == done;
  }

  lemma NextCharacter(query: string, src: Source, i: nat)
    requires i < |query| && Has(src, Marks(query))
    ensures Marks(query[..i + 1]) == Marks(query[..i]) + (if query[i] == '?' then 1 else 0) <= Marks(query)
    ensures Has(src, Marks(query[..i])) && Has(src, Marks(query[..i + 1]))
    ensures Substituted(query[..i + 1], src)
         == Substituted(query[..i], src) + if query[i] == '?' then TextOf(src, Marks(query[..i])) else [query[i]]
  {
    assert query[..i + 1][..i] == query[..i];
    assert query == query[..i + 1] + query[i + 1..];
    MarksAdd(query[..i + 1], query[i + 1..]);
  }
}
