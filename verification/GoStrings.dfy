/**
 The parts of Go's strings and strconv packages that the cron parser and the
 payload codec rely on, with the properties that connect them: splitting undoes
 joining, trimming is the identity on trimmed text, reading undoes printing.
 */
module GoStrings {

  datatype Option<+T> = None | Some(value: T)

  // ---- splitting and joining -------------------------------------------------

  /** strings.Split with a one-character separator. */
  function Split(s: string, sep: char): (parts: seq<string>)
    ensures |parts| >= 1
    ensures forall p :: p in parts ==> sep !in p
  {
    if s == "" then [""]
    else
      var rest := Split(s[1..], sep);
      if s[0] == sep then [""] + rest else [[s[0]] + rest[0]] + rest[1..]
  }

  /** strings.Join with a one-character separator. */
  function Join(parts: seq<string>, sep: char): string
  {
    if parts == [] then ""
    else if |parts| == 1 then parts[0]
    else parts[0] + [sep] + Join(parts[1..], sep)
  }

  lemma {:induction false} SplitFirst(p: string, rest: string, sep: char)
    requires sep !in p
    ensures Split(p + [sep] + rest, sep) == [p] + Split(rest, sep)
  {
    var s := p + [sep] + rest;
    if p == "" {
      assert s[1..] == rest;
    } else {
      assert s[1..] == p[1..] + [sep] + rest;
      SplitFirst(p[1..], rest, sep);
      assert [s[0]] + p[1..] == p;
    }
  }

  lemma {:induction false} SplitNoSeparator(p: string, sep: char)
    requires sep !in p
    ensures Split(p, sep) == [p]
  {
    if p != "" {
      SplitNoSeparator(p[1..], sep);
      assert [p[0]] + p[1..] == p;
    }
  }

  lemma {:induction false} SplitJoin(parts: seq<string>, sep: char)
    requires parts != [] && forall p :: p in parts ==> sep !in p
    ensures Split(Join(parts, sep), sep) == parts
  {
    if |parts| == 1 {
      SplitNoSeparator(parts[0], sep);
    } else {
      SplitJoin(parts[1..], sep);
      SplitFirst(parts[0], Join(parts[1..], sep), sep);
    }
  }

  lemma {:induction false} JoinSplit(s: string, sep: char)
    ensures Join(Split(s, sep), sep) == s
  {
    if s != "" {
      JoinSplit(s[1..], sep);
      var rest := Split(s[1..], sep);
      if s[0] != sep {
        var parts := Split(s, sep);
        assert parts[1..] == rest[1..];
      } else {
        assert ([""] + rest)[1..] == rest;
      }
      assert s == [s[0]] + s[1..];
    }
  }

  /** Joining an appended part: what a builder that writes sep + p extends. */
  lemma {:induction false} JoinSnoc(parts: seq<string>, p: string, sep: char)
    requires parts != []
    ensures Join(parts + [p], sep) == Join(parts, sep) + [sep] + p
  {
    if |parts| == 1 {
      assert (parts + [p])[1..] == [p];
    } else {
      JoinSnoc(parts[1..], p, sep);
      assert (parts + [p])[1..] == parts[1..] + [p];
    }
  }

  /** strings.Index for a one-character needle. */
  function Index(s: string, c: char): (i: int)
    ensures -1 <= i < |s|
    ensures i >= 0 ==> s[i] == c && c !in s[..i]
    ensures i < 0 ==> c !in s
  {
    if s == "" then -1
    else if s[0] == c then 0
    else
      var i := Index(s[1..], c);
      if i < 0 then -1
      else
        assert s[..i + 1] == [s[0]] + s[1..][..i];
        i + 1
  }

  /** The first occurrence is determined by any split around it. */
  lemma IndexAt(a: string, c: char, b: string)
    requires c !in a
    ensures Index(a + [c] + b, c) == |a|
    ensures (a + [c] + b)[..|a|] == a && (a + [c] + b)[|a| + 1..] == b
  {
    var s := a + [c] + b;
    var i := Index(s, c);
    assert s[|a|] == c;
    assert s[..|a|] == a;
    assert forall k :: |a| < k <= |s| ==> s[..k][|a|] == c;
  }

  // ---- white space -------------------------------------------------------------

  /** unicode.IsSpace. */
  predicate IsSpace(c: char)
  {
    c in " \t\n\r" || c as int in {0x0B, 0x0C, 0x85, 0xA0, 0x1680, 0x2028, 0x2029, 0x202F, 0x205F, 0x3000}
    || 0x2000 <= c as int <= 0x200A
  }

  predicate Trimmed(s: string)
  {
    s == "" || (!IsSpace(s[0]) && !IsSpace(s[|s| - 1]))
  }

  function TrimLeft(s: string): (r: string)
    ensures r == "" || !IsSpace(r[0])
    ensures |r| <= |s| && r == s[|s| - |r|..]
  {
    if s != "" && IsSpace(s[0]) then TrimLeft(s[1..]) else s
  }

  function TrimRight(s: string): (r: string)
    ensures r == "" || !IsSpace(r[|r| - 1])
    ensures |r| <= |s| && r == s[..|r|]
  {
    if s != "" && IsSpace(s[|s| - 1]) then TrimRight(s[..|s| - 1]) else s
  }

  /** strings.TrimSpace. */
  function TrimSpace(s: string): (r: string)
    ensures Trimmed(r)
    ensures Trimmed(s) ==> r == s
    ensures forall c :: c in r ==> c in s
  {
    TrimRight(TrimLeft(s))
  }

  predicate AllSpace(s: string) { forall c :: c in s ==> IsSpace(c) }

  lemma {:induction false} TrimLeftSkips(a: string, s: string)
    requires AllSpace(a)
    ensures TrimLeft(a + s) == TrimLeft(s)
  {
    hide IsSpace;
    if a == "" {
      assert a + s == s;
    } else {
      assert a[0] in a;
      assert (a + s)[1..] == a[1..] + s;
      TrimLeftSkips(a[1..], s);
    }
  }

  lemma {:induction false} TrimRightSkips(s: string, b: string)
    requires AllSpace(b)
    ensures TrimRight(s + b) == TrimRight(s)
  {
    hide IsSpace;
    if b == "" {
      assert s + b == s;
    } else {
      var n := |b| - 1;
      assert b[n] in b;
      assert (s + b)[..|s + b| - 1] == s + b[..n];
      TrimRightSkips(s, b[..n]);
    }
  }

  /** Trimming takes away exactly the white space around a text. */
  lemma TrimSpaceExactly(a: string, w: string, b: string)
    requires AllSpace(a) && AllSpace(b) && Trimmed(w)
    ensures TrimSpace(a + w + b) == w
  {
    hide IsSpace;
    assert a + w + b == a + (w + b);
    TrimLeftSkips(a, w + b);
    if w == "" {
      assert w + b == b == b + "";
      TrimLeftSkips(b, "");
    } else {
      assert TrimLeft(w + b) == w + b;
      TrimRightSkips(w, b);
    }
  }

  /** strings.Fields: the maximal runs of non-space characters. */
  function Fields(s: string): (parts: seq<string>)
    ensures forall p :: p in parts ==> p != "" && forall c :: c in p ==> !IsSpace(c)
    decreases |s|
  {
    if s == "" then []
    else if IsSpace(s[0]) then Fields(s[1..])
    else
      var n := WordLength(s);
      [s[..n]] + Fields(s[n..])
  }

  function WordLength(s: string): (n: nat)
    ensures n <= |s|
    ensures forall i :: 0 <= i < n ==> !IsSpace(s[i])
    ensures n < |s| ==> IsSpace(s[n])
    ensures s != "" && !IsSpace(s[0]) ==> n > 0
  {
    if s == "" || IsSpace(s[0]) then 0 else 1 + WordLength(s[1..])
  }

  predicate IsWord(w: string) { w != "" && forall c :: c in w ==> !IsSpace(c) }

  lemma {:induction false} WordEnds(w: string, rest: string)
    requires (forall c :: c in w ==> !IsSpace(c)) && (rest == "" || IsSpace(rest[0]))
    ensures WordLength(w + rest) == |w|
  {
    hide IsSpace;
    if w == "" {
      assert w + rest == rest;
    } else {
      assert (w + rest)[1..] == w[1..] + rest;
      assert w[0] in w;
      WordEnds(w[1..], rest);
    }
  }

  /** The fields of a text: white space in front is skipped, then comes the first word, up to the next white space. */
  lemma {:induction false} FieldsExactly(a: string, w: string, rest: string)
    requires AllSpace(a)
    ensures Fields(a) == []
    ensures IsWord(w) && (rest == "" || IsSpace(rest[0])) ==> Fields(a + w + rest) == [w] + Fields(rest)
  {
    hide WordLength, IsSpace;
    if a != "" {
      assert a[0] in a && (a + w + rest)[1..] == a[1..] + w + rest;
      FieldsExactly(a[1..], w, rest);
    } else if IsWord(w) && (rest == "" || IsSpace(rest[0])) {
      var s := a + w + rest;
      assert s == w + rest && w[0] in w;
      WordEnds(w, rest);
      assert s[..|w|] == w && s[|w|..] == rest;
    }
  }

  /** Words set apart by blanks are the fields of a text. */
  lemma {:induction false} FieldsOfWords(words: seq<string>)
    requires forall w :: w in words ==> IsWord(w)
    ensures Fields(Join(words, ' ')) == words
  {
    hide WordLength, IsSpace;
    assert IsSpace(' ') by { BlankIsSpace(); }
    if words != [] {
      var w, more := words[0], words[1..];
      assert w in words && w[0] in w;
      FieldsOfWords(more);
      if more == [] {
        assert Join(words, ' ') == w + "";
        WordEnds(w, "");
        assert w[..|w|] == w && w[|w|..] == "";
      } else {
        var rest := [' '] + Join(more, ' ');
        var s := Join(words, ' ');
        assert s == w + rest;
        WordEnds(w, rest);
        assert s[..|w|] == w && s[|w|..] == rest && rest[1..] == Join(more, ' ');
        assert Fields(rest) == Fields(rest[1..]);
      }
    }
  }

  lemma BlankIsSpace()
    ensures IsSpace(' ')
  {
  }

  /** White space among the ASCII characters. */
  lemma AsciiSpaces(c: char)
    requires c as int < 0x80
    ensures IsSpace(c) <==> c as int in {9, 10, 11, 12, 13, 32}
  {
  }

  // ---- decimal numbers -----------------------------------------------------------

  const MAX_INT64: int := 0x7FFF_FFFF_FFFF_FFFF

  predicate IsDigit(c: char) { '0' <= c <= '9' }

  predicate AllDigits(s: string) { s != "" && forall c :: c in s ==> IsDigit(c) }

  function DigitValue(c: char): nat
    requires IsDigit(c)
  {
    c as int - '0' as int
  }

  function DigitsValue(s: string): nat
    requires forall c :: c in s ==> IsDigit(c)
  {
    if s == "" then 0 else 10 * DigitsValue(s[..|s| - 1]) + DigitValue(s[|s| - 1])
  }

  /** The value of an optionally signed decimal numeral, unless it is malformed. */
  function Numeral(s: string): Option<int>
  {
    if AllDigits(s) then Some(DigitsValue(s))
    else if s != "" && s[0] in "+-" && AllDigits(s[1..]) then
      Some(if s[0] == '-' then 0 - DigitsValue(s[1..]) else DigitsValue(s[1..]))
    else None
  }

  /** strconv.Atoi on a 64-bit int: malformed and out-of-range text is an error. */
  function Atoi(s: string): (r: Option<int>)
    ensures r.Some? ==> -MAX_INT64 - 1 <= r.value <= MAX_INT64
    ensures r.Some? ==> s != "" && forall c :: c in s ==> IsDigit(c) || c in "+-"
  {
    var n := Numeral(s);
    if n.Some? && -MAX_INT64 - 1 <= n.value <= MAX_INT64 then
      assert s != "" && s[0] in "+-" ==> s == [s[0]] + s[1..];
      n
    else None
  }

  /** strconv.Itoa on a non-negative number. */
  function Itoa(n: nat): (s: string)
    ensures AllDigits(s)
  {
    var last := ('0' as int + n % 10) as char;
    if n < 10 then [last] else Itoa(n / 10) + [last]
  }

  lemma {:induction false} DigitsValueItoa(n: nat)
    ensures DigitsValue(Itoa(n)) == n
  {
    var s := Itoa(n);
    if n >= 10 {
      DigitsValueItoa(n / 10);
      assert s[..|s| - 1] == Itoa(n / 10);
    } else {
      assert s[..0] == "";
    }
  }

  lemma AtoiItoa(n: nat)
    requires n <= MAX_INT64
    ensures Atoi(Itoa(n)) == Some(n)
  {
    DigitsValueItoa(n);
  }

  /** What Atoi reads: signs count, and a number is an error exactly when it does not fit 64 bits. */
  lemma SignedNumerals(n: nat)
    ensures Atoi(Itoa(n)) == if n <= MAX_INT64 then Some(n) else None
    ensures Atoi("+" + Itoa(n)) == if n <= MAX_INT64 then Some(n) else None
    ensures Atoi("-" + Itoa(n)) == if n <= MAX_INT64 + 1 then Some(0 - n as int) else None
  {
    hide Itoa, DigitsValue;
    DigitsValueItoa(n);
    var s, plus, minus := Itoa(n), "+" + Itoa(n), "-" + Itoa(n);
    assert plus[1..] == s && minus[1..] == s;
    assert plus[0] == '+' && minus[0] == '-' && plus[0] in plus && minus[0] in minus;
    assert !AllDigits(plus) && !AllDigits(minus);
  }

  /** Itoa writes the digit of the units last, and no 0 in front. */
  lemma {:induction false} ItoaDigits(n: nat)
    ensures n < 10 ==> Itoa(n) == ["0123456789"[n]]
    ensures n >= 10 ==> Itoa(n) == Itoa(n / 10) + ["0123456789"[n % 10]]
    ensures n > 0 ==> Itoa(n)[0] != '0'
  {
    if n >= 10 {
      ItoaDigits(n / 10);
    }
  }
}
