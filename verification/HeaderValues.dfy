/** Reading and writing framing header values (headers.rs). */
module HeaderValues {
  import opened Bytes

  /** `HeaderValue::to_str` succeeds. */
  predicate Visible(line: ByteSeq) {
    forall i :: 0 <= i < |line| ==> line[i] == TAB || 32 <= line[i] < 127
  }

  predicate Blank(b: Byte) {
    b == SP || b == TAB
  }

  /** `str::trim` on visible ASCII. */
  function Trim(s: ByteSeq): ByteSeq {
    if s == [] then s
    else if Blank(s[0]) then Trim(s[1..])
    else if Blank(s[|s| - 1]) then Trim(s[..|s| - 1])
    else s
  }

  /** `str::split(',')`: the pieces between commas, at least one. */
  function Split(s: ByteSeq): (r: seq<ByteSeq>)
    ensures r != []
  {
    if s == [] then [[]]
    else
      var r := Split(s[1..]);
      if s[0] == COMMA then [[]] + r else [[s[0]] + r[0]] + r[1..]
  }

  // ---- decimal numbers -----------------------------------------------------

  predicate IsDigit(b: Byte) {
    48 <= b <= 57
  }

  predicate Digits(s: ByteSeq) {
    s != [] && forall i :: 0 <= i < |s| ==> IsDigit(s[i])
  }

  function DecimalValue(s: ByteSeq): nat
    requires forall i :: 0 <= i < |s| ==> IsDigit(s[i])
  {
    if s == [] then 0
    else
      assert IsDigit(s[|s| - 1]);
      DecimalValue(s[..|s| - 1]) * 10 + (s[|s| - 1] - 48)
  }

  /** A digit string denoting `n` as an unbounded number, with `n` below 2^64. */
  predicate Denotes(s: ByteSeq, n: nat) {
    Digits(s) && DecimalValue(s) == n < TWO_64
  }

  lemma {:induction false} DecimalGrows(s: ByteSeq, k: nat)
    requires (forall i :: 0 <= i < |s| ==> IsDigit(s[i])) && k <= |s|
    ensures DecimalValue(s[..k]) <= DecimalValue(s)
    decreases |s| - k
  {
    if k == |s| {
      assert s[..k] == s;
    } else {
      DecimalGrows(s, k + 1);
      assert s[..k + 1][..k] == s[..k];
    }
  }

  /** `from_digits`: exactly the digit strings whose value fits in 64 bits, with that value. */
  method FromDigits(bytes: ByteSeq) returns (r: Option<nat>)
    ensures r.Some? ==> Denotes(bytes, r.value)
    ensures r.None? ==> forall n :: !Denotes(bytes, n)
  {
    if bytes == [] { return None; }
    var result := 0;
    for i := 0 to |bytes|
      invariant forall j :: 0 <= j < i ==> IsDigit(bytes[j])
      invariant result == DecimalValue(bytes[..i]) < TWO_64
    {
      var b := bytes[i];
      if !IsDigit(b) { return None; }
      assert bytes[..i + 1][..i] == bytes[..i];
      if result * 10 >= TWO_64 || result * 10 + (b - 48) >= TWO_64 {
        if Digits(bytes) { DecimalGrows(bytes, i + 1); }
        return None;
      }
      result := result * 10 + (b - 48);
    }
    assert bytes[..|bytes|] == bytes;
    return Some(result);
  }

  /** `HeaderValue::from(u64)`. */
  function Decimal(n: nat): ByteSeq {
    if n < 10 then [48 + n] else Decimal(n / 10) + [48 + n % 10]
  }

  lemma {:induction false} DecimalRoundTrip(n: nat)
    ensures Digits(Decimal(n)) && DecimalValue(Decimal(n)) == n
  {
    if n >= 10 {
      DecimalRoundTrip(n / 10);
      var d := Decimal(n);
      assert d[..|d| - 1] == Decimal(n / 10);
    }
  }

  // ---- Content-Length ------------------------------------------------------

  /** All comma-separated elements of a line, trimmed, denote `n`. */
  predicate LineDenotes(line: ByteSeq, n: nat) {
    Visible(line) && forall i :: 0 <= i < |Split(line)| ==> Denotes(Trim(Split(line)[i]), n)
  }

  /** The field has a value at all and every element on every line denotes the same `n`. */
  predicate ContentLengthIs(lines: seq<ByteSeq>, n: nat) {
    lines != [] && forall i :: 0 <= i < |lines| ==> LineDenotes(lines[i], n)
  }

  lemma LineDenotesOne(line: ByteSeq, n: nat, m: nat)
    requires LineDenotes(line, n) && LineDenotes(line, m)
    ensures n == m
  {
    assert Denotes(Trim(Split(line)[0]), n) && Denotes(Trim(Split(line)[0]), m);
  }

  lemma ContentLengthIsOne(lines: seq<ByteSeq>, n: nat, m: nat)
    requires ContentLengthIs(lines, n) && ContentLengthIs(lines, m)
    ensures n == m
  {
    LineDenotesOne(lines[0], n, m);
  }

  /** One line folded into the value agreed so far. */
  method ParseLine(line: ByteSeq, soFar: Option<nat>) returns (ok: bool, r: Option<nat>)
    requires soFar.Some? ==> soFar.value < TWO_64
    ensures ok ==> r.Some? && r.value < TWO_64 && LineDenotes(line, r.value) && (soFar.Some? ==> r == soFar)
    ensures !ok ==> forall n :: LineDenotes(line, n) ==> soFar.Some? && soFar.value != n
  {
    r := soFar;
    if !Visible(line) { return false, r; }
    var parts := Split(line);
    for i := 0 to |parts|
      invariant i > 0 ==> r.Some?
      invariant i == 0 ==> r == soFar
      invariant r.Some? ==> r.value < TWO_64
      invariant soFar.Some? ==> r == soFar
      invariant forall j :: 0 <= j < i ==> Denotes(Trim(parts[j]), r.value)
    {
      var v := FromDigits(Trim(parts[i]));
      if v.None? {
        assert forall n :: !Denotes(Trim(parts[i]), n);
        return false, r;
      }
      if r.None? {
        r := v;
      } else if r != v {
        assert forall n :: LineDenotes(line, n) ==> Denotes(Trim(parts[i]), n);
        assert i > 0 ==> forall n :: LineDenotes(line, n) ==> Denotes(Trim(parts[0]), n);
        return false, r;
      }
    }
    ok := true;
  }

  /** `content_length_parse_all`: the agreed length, exactly when there is one. */
  method ContentLengthParseAll(lines: seq<ByteSeq>) returns (r: Option<nat>)
    ensures r.Some? ==> ContentLengthIs(lines, r.value) && r.value < TWO_64
    ensures r.None? ==> forall n :: !ContentLengthIs(lines, n)
  {
    r := None;
    for i := 0 to |lines|
      invariant (i > 0 <==> r.Some?) && (r.Some? ==> r.value < TWO_64)
      invariant forall j :: 0 <= j < i ==> LineDenotes(lines[j], r.value)
    {
      var ok, v := ParseLine(lines[i], r);
      if !ok {
        if i > 0 {
          forall n | LineDenotes(lines[0], n) ensures n == r.value {
            LineDenotesOne(lines[0], n, r.value);
          }
        }
        assert forall n :: LineDenotes(lines[i], n) ==> i > 0 && !LineDenotes(lines[0], n);
        return None;
      }
      r := v;
    }
  }

  lemma {:induction false} SplitWithoutComma(s: ByteSeq)
    requires forall i :: 0 <= i < |s| ==> s[i] != COMMA
    ensures Split(s) == [s]
    decreases |s|
  {
    if s != [] {
      SplitWithoutComma(s[1..]);
      assert [s[0]] + s[1..] == s;
    }
  }

  /** A length written as a header value reads back as itself. */
  lemma WrittenLengthReadsBack(n: nat)
    requires n < TWO_64
    ensures ContentLengthIs([Decimal(n)], n)
  {
    DecimalRoundTrip(n);
    var d := Decimal(n);
    SplitWithoutComma(d);
    assert Trim(d) == d;
    assert LineDenotes(d, n);
  }

  // ---- Transfer-Encoding ---------------------------------------------------

  /** "chunked" */
  const CHUNKED: ByteSeq := [99, 104, 117, 110, 107, 101, 100]

  function Lower(b: Byte): Byte {
    if 65 <= b <= 90 then b + 32 else b
  }

  predicate EqIgnoreCase(a: ByteSeq, b: ByteSeq) {
    |a| == |b| && forall i :: 0 <= i < |a| ==> Lower(a[i]) == Lower(b[i])
  }

  /** `rsplit(',').next()`: what follows the last comma. */
  function LastElement(s: ByteSeq): ByteSeq {
    if s == [] then [] else if s[|s| - 1] == COMMA then [] else LastElement(s[..|s| - 1]) + [s[|s| - 1]]
  }

  /** `is_chunked`: chunked is the final coding of the last line. */
  predicate IsChunked(lines: seq<ByteSeq>) {
    && lines != []
    && Visible(lines[|lines| - 1])
    && EqIgnoreCase(Trim(LastElement(lines[|lines| - 1])), CHUNKED)
  }

  /** `add_chunked`: append the coding to the last line. */
  function AddChunked(lines: seq<ByteSeq>): seq<ByteSeq> {
    if lines == [] then [CHUNKED]
    else lines[|lines| - 1 := lines[|lines| - 1] + [COMMA, SP] + CHUNKED]
  }

  lemma {:induction false} LastElementAfterComma(s: ByteSeq, t: ByteSeq)
    requires forall i :: 0 <= i < |t| ==> t[i] != COMMA
    ensures LastElement(s + [COMMA] + t) == t
    decreases |t|
  {
    var all := s + [COMMA] + t;
    if t != [] {
      LastElementAfterComma(s, t[..|t| - 1]);
      assert all[..|all| - 1] == s + [COMMA] + t[..|t| - 1];
    }
  }

  /** The repair works exactly when the line it appends to is visible ASCII. */
  lemma AddChunkedIsChunked(lines: seq<ByteSeq>)
    requires lines != []
    ensures IsChunked(AddChunked(lines)) <==> Visible(lines[|lines| - 1])
  {
    var line := lines[|lines| - 1];
    var repaired := line + [COMMA, SP] + CHUNKED;
    assert AddChunked(lines)[|lines| - 1] == repaired;
    assert repaired == line + [COMMA] + ([SP] + CHUNKED);
    LastElementAfterComma(line, [SP] + CHUNKED);
    assert ([SP] + CHUNKED)[1..] == CHUNKED;
    assert Trim([SP] + CHUNKED) == CHUNKED;
    if Visible(repaired) {
      assert forall i :: 0 <= i < |line| ==> repaired[i] == line[i];
    }
  }

  // ---- Connection ----------------------------------------------------------

  /** `connection_has`: some element equals `needle`, ignoring case. */
  predicate ConnectionHas(value: ByteSeq, needle: ByteSeq) {
    Visible(value) && exists i :: 0 <= i < |Split(value)| && EqIgnoreCase(Trim(Split(value)[i]), needle)
  }

  /** "close" and "keep-alive" */
  const CLOSE: ByteSeq := [99, 108, 111, 115, 101]
  const KEEP_ALIVE: ByteSeq := [107, 101, 101, 112, 45, 97, 108, 105, 118, 101]

  lemma KeepAliveHasItself()
    ensures ConnectionHas(KEEP_ALIVE, KEEP_ALIVE)
  {
    hide Split, Trim, Lower;
    SplitWithoutComma(KEEP_ALIVE);
    TrimNothing(KEEP_ALIVE);
    assert Split(KEEP_ALIVE)[0] == KEEP_ALIVE;
  }

  lemma TrimNothing(s: ByteSeq)
    requires s != [] && !Blank(s[0]) && !Blank(s[|s| - 1])
    ensures Trim(s) == s
  {
  }

  // ---- what the elementary functions mean ----------------------------------

  /** The bytes of an ASCII string. */
  predicate Spells(b: ByteSeq, s: string) {
    |b| == |s| && forall i :: 0 <= i < |b| ==> b[i] == s[i] as int
  }

  lemma Spellings()
    ensures Spells(CHUNKED, "chunked") && Spells(CLOSE, "close") && Spells(KEEP_ALIVE, "keep-alive")
  {
  }

  /** Put pieces back together with commas between them. */
  function Join(pieces: seq<ByteSeq>): ByteSeq
    requires pieces != []
  {
    if |pieces| == 1 then pieces[0] else pieces[0] + [44] + Join(pieces[1..])
  }

  /** Splitting loses nothing but the commas, and takes all of them. */
  lemma {:induction false} SplitIs(s: ByteSeq)
    ensures Join(Split(s)) == s
    ensures forall i :: 0 <= i < |Split(s)| ==> 44 !in Split(s)[i]
    decreases |s|
  {
    if s != [] {
      SplitIs(s[1..]);
      var r := Split(s[1..]);
      if s[0] == 44 {
        assert ([[]] + r)[1..] == r;
      } else {
        assert ([[s[0]] + r[0]] + r[1..])[1..] == r[1..];
      }
    }
  }

  lemma SplitFirst(s: ByteSeq)
    requires s != []
    ensures var r := Split(s[1..]);
            Split(s) == if s[0] == COMMA then [[]] + r else [[s[0]] + r[0]] + r[1..]
  {
  }

  /** A comma separates the elements on its two sides. */
  lemma {:induction false} SplitAtComma(a: ByteSeq, b: ByteSeq)
    ensures Split(a + [44] + b) == Split(a) + Split(b)
    decreases |a|
  {
    var s := a + [44] + b;
    if a == [] {
      assert s == [44] + b && s[1..] == b;
    } else {
      assert s[1..] == a[1..] + [44] + b;
      SplitAtComma(a[1..], b);
      SplitFirst(a);
      SplitFirst(s);
      hide Split;
      var r, t := Split(a[1..]), Split(b);
      if a[0] == 44 {
        assert [[]] + (r + t) == ([[]] + r) + t;
      } else {
        assert (r + t)[1..] == r[1..] + t;
        assert [[a[0]] + r[0]] + (r[1..] + t) == ([[a[0]] + r[0]] + r[1..]) + t;
      }
    }
  }

  /** Trimming takes spaces and tabs off both ends and nothing else. */
  lemma {:induction false} TrimIs(s: ByteSeq) returns (a: nat, b: nat)
    ensures a <= b <= |s| && Trim(s) == s[a..b]
    ensures forall i :: 0 <= i < a || b <= i < |s| ==> s[i] == 9 || s[i] == 32
    ensures a < b ==> !(s[a] == 9 || s[a] == 32) && !(s[b - 1] == 9 || s[b - 1] == 32)
    decreases |s|
  {
    if s == [] {
      a, b := 0, 0;
    } else if Blank(s[0]) {
      a, b := TrimIs(s[1..]);
      a, b := a + 1, b + 1;
    } else if Blank(s[|s| - 1]) {
      a, b := TrimIs(s[..|s| - 1]);
    } else {
      a, b := 0, |s|;
    }
  }

  /** Equal but for the case of letters. */
  lemma EqIgnoreCaseIs(a: ByteSeq, b: ByteSeq)
    ensures EqIgnoreCase(a, b) <==>
              |a| == |b| && forall i :: 0 <= i < |a| ==>
                a[i] == b[i] || (65 <= a[i] <= 90 && b[i] == a[i] + 32) || (65 <= b[i] <= 90 && a[i] == b[i] + 32)
  {
  }

  /** `to_str` takes the visible ASCII characters and tabs. */
  lemma VisibleIs(line: ByteSeq)
    ensures Visible(line) <==> forall b :: b in line ==> b == 9 || 32 <= b <= 126
  {
    if Visible(line) {
      forall b | b in line ensures b == 9 || 32 <= b <= 126 {
        var i :| 0 <= i < |line| && line[i] == b;
      }
    }
    if forall b :: b in line ==> b == 9 || 32 <= b <= 126 {
      forall i | 0 <= i < |line| ensures line[i] == TAB || 32 <= line[i] < 127 {
        assert line[i] in line;
      }
    }
  }

  /** A token is in a list if it is on either side of a comma, and in a single element if it is that element. */
  lemma ConnectionHasIs(a: ByteSeq, b: ByteSeq, needle: ByteSeq)
    ensures ConnectionHas(a + [44] + b, needle) <==>
              Visible(a) && Visible(b) && (ConnectionHas(a, needle) || ConnectionHas(b, needle))
    ensures 44 !in a ==> (ConnectionHas(a, needle) <==> Visible(a) && EqIgnoreCase(Trim(a), needle))
  {
    var s := a + [44] + b;
    SplitAtComma(a, b);
    hide Split, Trim, EqIgnoreCase;
    var x, y := Split(a), Split(b);
    VisibleBothSides(a, b);
    assert forall i :: 0 <= i < |x| ==> (x + y)[i] == x[i];
    assert forall i :: 0 <= i < |y| ==> (x + y)[|x| + i] == y[i];
    if 44 !in a {
      SplitWithoutComma(a);
      assert x == [a] && x[0] == a;
    }
  }

  /** The final coding: that of the last line, after its last comma. */
  lemma IsChunkedIs(lines: seq<ByteSeq>, line: ByteSeq, a: ByteSeq)
    ensures IsChunked(lines + [line]) <==> IsChunked([line])
    ensures !IsChunked([])
    ensures 44 !in line ==> (IsChunked([a + [44] + line]) <==> Visible(a) && IsChunked([line]))
    ensures 44 !in line ==> (IsChunked([line]) <==> Visible(line) && EqIgnoreCase(Trim(line), CHUNKED))
  {
    hide LastElement, Trim, EqIgnoreCase, Visible;
    var s := a + [44] + line;
    if 44 !in line {
      LastElementAfterComma(a, line);
      LastElementAlone(line);
    }
    VisibleBothSides(a, line);
  }

  lemma VisibleBothSides(a: ByteSeq, b: ByteSeq)
    ensures Visible(a + [44] + b) <==> Visible(a) && Visible(b)
  {
    var s := a + [44] + b;
    assert forall i :: 0 <= i < |a| ==> s[i] == a[i];
    assert forall i :: 0 <= i < |b| ==> s[|a| + 1 + i] == b[i];
    assert s[|a|] == 44;
  }

  lemma {:induction false} LastElementAlone(s: ByteSeq)
    requires 44 !in s
    ensures LastElement(s) == s
    decreases |s|
  {
    if s != [] {
      LastElementAlone(s[..|s| - 1]);
    }
  }

  /** The repair leaves every other line, and all of the last, in place. */
  lemma AddChunkedKeeps(lines: seq<ByteSeq>)
    requires lines != []
    ensures var r := AddChunked(lines); var n := |lines| - 1;
            |r| == |lines| && r[..n] == lines[..n] && lines[n] + [44] <= r[n]
  {
    var n := |lines| - 1;
    assert lines[n] + [COMMA, SP] + CHUNKED == (lines[n] + [44]) + ([SP] + CHUNKED);
  }
}
