/** The text format spelled out: what printing and extraction do, character by character and
    field by field, and one command and one reply in full. */
module WireFormat {
  import opened Common
  import opened Wire
  import Words

  // ----- Characters and numbers -----

  lemma CharacterClasses(c: char)
    ensures IsSpace(c) <==> c as int in [9, 10, 11, 12, 13, 32]
    ensures IsDigit(c) <==> c in "0123456789"
    ensures forall d: nat :: d < 10 ==> Digit(d) == "0123456789"[d]
  {
    var digits := "0123456789";
    forall d: nat | d < 10
      ensures Digit(d) == digits[d] && digits[d] as int == 48 + d
    {
      Digits(d);
    }
    if IsDigit(c) {
      assert digits[c as int - 48] == c;
    }
  }

  lemma Digits(d: nat)
    requires d < 10
    ensures Digit(d) == "0123456789"[d] && "0123456789"[d] as int == 48 + d
  {
  }

  function Power10(k: nat): (p: nat)
    ensures p > 0
  {
    if k == 0 then 1 else 10 * Power10(k - 1)
  }

  /** The digit k places from the right counts the k-th power of ten, and there is no leading zero. */
  lemma {:induction false} DecimalPlaces(n: nat, k: nat)
    requires k < |Decimal(n)|
    ensures Decimal(n)[|Decimal(n)| - 1 - k] == "0123456789"[n / Power10(k) % 10]
    ensures n < Power10(|Decimal(n)|) && (n > 0 ==> Decimal(n)[0] != '0')
    ensures n == 0 ==> Decimal(n) == "0"
    decreases n
  {
    var s := DecimalNat(n);
    Digits(n % 10);
    if n >= 10 {
      DecimalPlaces(n / 10, if k == 0 then 0 else k - 1);
      if k > 0 {
        Words.DivTwice(n, 10, Power10(k - 1));
      }
      assert s[0] == DecimalNat(n / 10)[0];
    }
  }

  lemma NegativeDecimal(n: nat)
    requires n > 0
    ensures Decimal(0 - n) == "-" + Decimal(n)
  {
  }

  /** Reading digits is positional, in base ten. */
  lemma ValueStep(digits: string, d: nat)
    requires d < 10 && forall i :: 0 <= i < |digits| ==> IsDigit(digits[i])
    ensures var longer := digits + ["0123456789"[d]];
            (forall i :: 0 <= i < |longer| ==> IsDigit(longer[i])) && Value(longer) == 10 * Value(digits) + d
    ensures Value("") == 0
  {
    Digits(d);
    var longer := digits + ["0123456789"[d]];
    assert longer[..|longer| - 1] == digits;
  }

  // ----- Extraction -----

  predicate AllSpace(s: string) {
    forall c :: c in s ==> IsSpace(c)
  }

  lemma {:induction false} SkipSpacesOf(spaces: string, t: string)
    requires AllSpace(spaces) && (t == "" || !IsSpace(t[0]))
    ensures SkipSpaces(spaces + t) == t
  {
    if spaces == "" {
      assert spaces + t == t;
    } else {
      assert spaces[0] in spaces;
      assert (spaces + t)[1..] == spaces[1..] + t;
      SkipSpacesOf(spaces[1..], t);
    }
  }

  /** Extraction of a word skips any white space, takes everything up to the next white space,
      and fails only when there is nothing else. */
  lemma WordIs(spaces: string, w: string, rest: string)
    requires AllSpace(spaces) && NoSpace(w) && (rest == "" || IsSpace(rest[0])) && (w == "" ==> rest == "")
    ensures ReadWord(spaces + w + rest) == if w == "" then None else Some((w, rest))
  {
    var t := w + rest;
    assert w != "" ==> w[0] in w;
    assert spaces + w + rest == spaces + t;
    SkipSpacesOf(spaces, t);
    WordLengthOf(w, rest);
    assert t[..|w|] == w && t[|w|..] == rest;
  }

  /** The operation is the first word of a command and its argument the second, whatever white space
      is around them and whatever follows. */
  lemma CommandIs(before: string, op: string, gap: string, w: string, rest: string)
    requires AllSpace(before) && Token(op) && AllSpace(gap) && gap != ""
    requires NoSpace(w) && (rest == "" || IsSpace(rest[0])) && (w == "" ==> rest == "")
    ensures OpOf(before + op + (gap + w + rest)) == op
    ensures ArgumentOf(before + op + (gap + w + rest)) == if w == "" then None else Some(w)
  {
    assert gap[0] in gap && (gap + w + rest)[0] == gap[0];
    WordIs(before, op, gap + w + rest);
    WordIs(gap, w, rest);
    hide ReadWord, AllSpace, Token, NoSpace, IsSpace;
  }

  lemma DigitsAre(digits: string, rest: string)
    requires (forall i :: 0 <= i < |digits| ==> IsDigit(digits[i])) && (rest == "" || !IsDigit(rest[0]))
    ensures ReadDigits(digits + rest) == if digits == "" then None else Some((Value(digits), rest))
  {
    DigitsLengthOf(digits, rest);
    assert (digits + rest)[..|digits|] == digits && (digits + rest)[|digits|..] == rest;
  }

  /** The number that a sign and digits stand for, if it is in range. */
  function Signed(negative: bool, magnitude: Option<(nat, string)>, lo: int, hi: int): Option<(int, string)> {
    if magnitude.None? then None
    else
      var v := if negative then 0 - magnitude.value.0 else magnitude.value.0;
      if lo <= v <= hi then Some((v, magnitude.value.1)) else None
  }

  lemma WithSign(c: char, u: string, lo: int, hi: int)
    requires c == '-' || c == '+'
    ensures ReadNumber([c] + u, lo, hi) == Signed(c == '-', ReadDigits(u), lo, hi)
  {
    hide ReadDigits;
    var t := [c] + u;
    assert t[0] == c && t[1..] == u;
  }

  lemma WithoutSign(u: string, lo: int, hi: int)
    requires u != "" ==> u[0] != '-' && u[0] != '+'
    ensures ReadNumber(u, lo, hi) == Signed(false, ReadDigits(u), lo, hi)
  {
    hide ReadDigits;
  }

  lemma UnfoldReadInt(s: string, lo: int, hi: int)
    ensures ReadInt(s, lo, hi) == ReadNumber(SkipSpaces(s), lo, hi)
  {
  }

  /** Extraction of a number: white space, a sign, digits; out of range, or no digits, is a failure. */
  lemma NumberIs(spaces: string, sign: string, digits: string, rest: string, lo: int, hi: int)
    requires AllSpace(spaces) && (sign == "" || sign == "+" || sign == "-")
    requires (forall i :: 0 <= i < |digits| ==> IsDigit(digits[i])) && (rest == "" || !IsDigit(rest[0]))
    requires digits == "" && sign == "" ==> rest == "" || (!IsSpace(rest[0]) && rest[0] != '+' && rest[0] != '-')
    ensures ReadInt(spaces + (sign + (digits + rest)), lo, hi) ==
            var v: int := if sign == "-" then 0 - Value(digits) else Value(digits);
            if digits != "" && lo <= v <= hi then Some((v, rest)) else None
  {
    hide ReadInt, ReadNumber, ReadDigits, SkipSpaces, Value, IsDigit, IsSpace, AllSpace;
    var u := digits + rest;
    var t := sign + u;
    FirstOfNumber(sign, digits, rest);
    SkipSpacesOf(spaces, t);
    UnfoldReadInt(spaces + t, lo, hi);
    DigitsAre(digits, rest);
    if sign == "" {
      assert t == u;
      WithoutSign(u, lo, hi);
    } else {
      WithSign(sign[0], u, lo, hi);
      assert sign == [sign[0]];
    }
  }

  lemma FirstOfNumber(sign: string, digits: string, rest: string)
    requires sign == "" || sign == "+" || sign == "-"
    requires forall i :: 0 <= i < |digits| ==> IsDigit(digits[i])
    requires digits == "" && sign == "" ==> rest == "" || (!IsSpace(rest[0]) && rest[0] != '+' && rest[0] != '-')
    ensures var t := sign + (digits + rest);
            t != "" ==> !IsSpace(t[0]) && (sign == "" ==> t[0] != '-' && t[0] != '+')
  {
    if digits != "" {
      assert IsDigit(digits[0]) && (digits + rest)[0] == digits[0];
    } else {
      assert digits + rest == rest;
    }
  }

  // ----- Hash lists -----

  lemma SplitPlain(s: string)
    requires ',' !in s
    ensures Split(s) == if s == "" then [] else [s]
  {
    CommaAtEnd(s, "");
    assert s + "" == s && s[..|s|] == s;
  }

  lemma SplitFirst(first: string, rest: string)
    requires ',' !in first
    ensures Split(first + "," + rest) == (if first == "" then [] else [first]) + Split(rest)
  {
    var s := first + "," + rest;
    assert s == first + ("," + rest);
    CommaAtEnd(first, "," + rest);
    assert s[..|first|] == first && s[|first| + 1..] == rest;
  }

  /** Commas separate, and nothing between two of them is nothing. With SplitPlain this is all
      that splitting does. */
  lemma {:induction false} SplitComma(a: string, b: string)
    ensures Split(a + "," + b) == Split(a) + Split(b)
    decreases |a|
  {
    hide Split;
    var n := CommaAt(a);
    if n == |a| {
      SplitPlain(a);
      SplitFirst(a, b);
    } else {
      var first, rest := a[..n], a[n + 1..];
      assert a == first + "," + rest;
      assert a + "," + b == first + "," + (rest + "," + b);
      SplitFirst(first, rest);
      SplitFirst(first, rest + "," + b);
      SplitComma(rest, b);
    }
  }

  // ----- Fields -----

  /** Which field of a PUT command is which. */
  lemma PutFields(name: string, size: int, chunk: int, total: int, root: string, hashes: seq<string>)
    requires Token(name) && Token(root) && HashListOk(hashes)
    requires -0x8000_0000_0000_0000 <= size < 0x8000_0000_0000_0000
    requires -0x8000_0000 <= chunk < 0x8000_0000 && -0x8000_0000 <= total < 0x8000_0000
    ensures var text := "PUT " + name + " " + Decimal(size) + " " + Decimal(chunk) + " " + Decimal(total) + " " +
                        root + " " + Join(hashes);
            var parsed := ParsePut(text);
            && OpOf(text) == "PUT" && parsed.Some?
            && parsed.value.filename == name && parsed.value.fileSize == size && parsed.value.chunkSize == chunk
            && parsed.value.totalChunks == total && parsed.value.rootHash == root && parsed.value.chunkHashes == hashes
  {
    PutRoundTrip(FileMetadata(name, size, chunk, total, root, hashes));
    hide ParsePut, OpOf;
  }

  /** Which field of a FOUND reply is which. */
  lemma FoundFields(name: string, size: int, chunk: int, total: int, root: string, hashes: seq<string>)
    requires Token(root) && HashListOk(hashes)
    requires -0x8000_0000_0000_0000 <= size < 0x8000_0000_0000_0000
    requires -0x8000_0000 <= chunk < 0x8000_0000 && -0x8000_0000 <= total < 0x8000_0000
    ensures var parsed := ParseFound(name, "FOUND " + Decimal(size) + " " + Decimal(chunk) + " " + Decimal(total) + " " +
                                           root + " " + Join(hashes));
            && parsed.Some?
            && parsed.value.filename == name && parsed.value.fileSize == size && parsed.value.chunkSize == chunk
            && parsed.value.totalChunks == total && parsed.value.rootHash == root && parsed.value.chunkHashes == hashes
  {
    FoundRoundTrip(FileMetadata(name, size, chunk, total, root, hashes));
    hide ParseFound;
  }

  /** Nothing else is understood as metadata. */
  lemma OtherReplies(name: string, response: string)
    requires |response| < 6 || response[..6] != "FOUND "
    ensures ParseFound(name, response).None?
    ensures ParseFound(name, "FOUND ").None?
  {
  }

  /** What the protocol can carry, in numbers. */
  lemma WellFormedIs(m: FileMetadata)
    ensures WellFormed(m) <==>
            && m.filename != "" && m.rootHash != "" && m.chunkHashes != []
            && (forall c :: c in m.filename || c in m.rootHash ==> c as int !in [9, 10, 11, 12, 13, 32])
            && (forall h :: h in m.chunkHashes ==> h != "" && forall c :: c in h ==> c as int !in [9, 10, 11, 12, 13, 32, 44])
            && -0x8000_0000_0000_0000 <= m.fileSize < 0x8000_0000_0000_0000
            && -0x8000_0000 <= m.chunkSize < 0x8000_0000 && -0x8000_0000 <= m.totalChunks < 0x8000_0000
  {
  }

  /** One PUT and one FOUND in full: a file of 15 bytes in chunks of ten. */
  lemma Example()
    ensures var m := FileMetadata("f", 15, 10, 2, "9f", ["b7", "0c"]);
            && PrintPut(m) == "PUT f 15 10 2 9f b7,0c"
            && PrintFound(m) == "FOUND 15 10 2 9f b7,0c"
            && ParsePut("PUT f 15 10 2 9f b7,0c") == Some(m)
            && ParseFound("f", "FOUND 15 10 2 9f b7,0c") == Some(m)
  {
    hide *;
    var m := FileMetadata("f", 15, 10, 2, "9f", ["b7", "0c"]);
    ExampleTexts(m);
    ExampleIsWellFormed(m);
    PutRoundTrip(m);
    FoundRoundTrip(m);
  }

  lemma ExampleTexts(m: FileMetadata)
    requires m == FileMetadata("f", 15, 10, 2, "9f", ["b7", "0c"])
    ensures PrintPut(m) == "PUT f 15 10 2 9f b7,0c"
    ensures PrintFound(m) == "FOUND 15 10 2 9f b7,0c"
  {
    hide *;
    PutText(m);
    FoundText(m);
    ExampleBody(m);
    ExamplePut();
    ExampleFound();
  }

  lemma ExamplePut()
    ensures "" + "PUT" + (" " + "f" + (" " + "15 10 2 9f b7,0c")) ==
            "PUT f 15 10 2 9f b7,0c"
  {
  }

  lemma ExampleFound()
    ensures "FOUND " + "15 10 2 9f b7,0c" == "FOUND 15 10 2 9f b7,0c"
  {
  }

  lemma ExampleBody(m: FileMetadata)
    requires m == FileMetadata("f", 15, 10, 2, "9f", ["b7", "0c"])
    ensures Body(m) == "15 10 2 9f b7,0c"
  {
    ExampleNumbers();
    ExampleHashes();
    hide Decimal, Join;
    assert Hashes(m) == " 9f b7,0c";
  }

  lemma ExampleIsWellFormed(m: FileMetadata)
    requires m == FileMetadata("f", 15, 10, 2, "9f", ["b7", "0c"])
    ensures WellFormed(m) && BodyOk(m)
  {
    assert forall h :: h in m.chunkHashes ==> h == "b7" || h == "0c";
  }

  lemma ExampleNumbers()
    ensures Decimal(15) == "15" && Decimal(10) == "10" && Decimal(2) == "2"
  {
    assert DecimalNat(1) == "1";
  }

  lemma ExampleHashes()
    ensures Join(["b7", "0c"]) == "b7,0c"
  {
    assert ["b7", "0c"][1..] == ["0c"];
    assert "b7" + "," + "0c" == "b7,0c";
  }
}
