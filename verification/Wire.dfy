/** The text protocol between clients and nodes: how commands and replies are printed, how
    stream extraction reads them back, and when the two agree. */
module Wire {
  import opened Common

  const INT32_MIN := -0x8000_0000
  const INT32_MAX := 0x7fff_ffff
  const INT64_MIN := -0x8000_0000_0000_0000
  const INT64_MAX := 0x7fff_ffff_ffff_ffff

  // ----- Characters -----

  /** White space in the C locale. */
  predicate IsSpace(c: char) {
    c == ' ' || 9 as char <= c <= 13 as char
  }

  predicate IsDigit(c: char) {
    '0' <= c <= '9'
  }

  predicate NoSpace(s: string) {
    forall c :: c in s ==> !IsSpace(c)
  }

  /** A string that extraction reads back as one word. */
  predicate Token(s: string) {
    s != "" && NoSpace(s)
  }

  // ----- Stream extraction -----

  function SkipSpaces(s: string): (t: string)
    ensures |t| <= |s|
  {
    if s == "" || !IsSpace(s[0]) then s else SkipSpaces(s[1..])
  }

  /** The length of the longest prefix free of white space. */
  function WordLength(s: string): (n: nat)
    ensures n <= |s| && NoSpace(s[..n]) && (n < |s| ==> IsSpace(s[n]))
  {
    if s == "" || IsSpace(s[0]) then 0
    else
      var n := 1 + WordLength(s[1..]);
      assert s[..n] == [s[0]] + s[1..][..n - 1];
      n
  }

  /** Extracting a word: the word and what is left of the stream. */
  function ReadWord(s: string): (r: Option<(string, string)>)
    ensures r.Some? ==> Token(r.value.0)
  {
    var t := SkipSpaces(s);
    var n := WordLength(t);
    if n == 0 then None else Some((t[..n], t[n..]))
  }

  function DigitsLength(s: string): (n: nat)
    ensures n <= |s| && (forall i :: 0 <= i < n ==> IsDigit(s[i])) && (n < |s| ==> !IsDigit(s[n]))
  {
    if s == "" || !IsDigit(s[0]) then 0 else 1 + DigitsLength(s[1..])
  }

  /** The number that a string of decimal digits denotes. */
  function Value(s: string): nat
    requires forall i :: 0 <= i < |s| ==> IsDigit(s[i])
  {
    if s == "" then 0
    else
      assert IsDigit(s[|s| - 1]);
      10 * Value(s[..|s| - 1]) + (s[|s| - 1] as int - '0' as int)
  }

  /** The digits at the start of a string, as a number, and what follows them. */
  function ReadDigits(s: string): (r: Option<(nat, string)>) {
    var n := DigitsLength(s);
    if n == 0 then None else Some((Value(s[..n]), s[n..]))
  }

  /** Extracting a signed integer of a given width: an optional sign and as many digits as
      there are; no digits, or a value out of range, is a failure. */
  function ReadInt(s: string, lo: int, hi: int): (r: Option<(int, string)>)
    ensures r.Some? ==> lo <= r.value.0 <= hi
  {
    ReadNumber(SkipSpaces(s), lo, hi)
  }

  function ReadNumber(t: string, lo: int, hi: int): (r: Option<(int, string)>)
    ensures r.Some? ==> lo <= r.value.0 <= hi
  {
    var signed := t != "" && (t[0] == '-' || t[0] == '+');
    var (magnitude: int, rest) :- ReadDigits(if signed then t[1..] else t);
    var v := if signed && t[0] == '-' then 0 - magnitude else magnitude;
    if lo <= v <= hi then Some((v, rest)) else None
  }

  // ----- Printing -----

  function Digit(d: nat): char
    requires d < 10
  {
    ('0' as int + d) as char
  }

  function DecimalNat(n: nat): (s: string)
    ensures s != "" && forall i :: 0 <= i < |s| ==> IsDigit(s[i])
  {
    if n < 10 then [Digit(n)] else DecimalNat(n / 10) + [Digit(n % 10)]
  }

  function Decimal(n: int): string {
    if n < 0 then "-" + DecimalNat(-n) else DecimalNat(n)
  }

  // ----- Comma-separated hash lists -----

  function Join(hashes: seq<string>): string {
    if |hashes| == 0 then ""
    else if |hashes| == 1 then hashes[0]
    else hashes[0] + "," + Join(hashes[1..])
  }

  function CommaAt(s: string): (n: nat)
    ensures n <= |s| && (forall i :: 0 <= i < n ==> s[i] != ',') && (n < |s| ==> s[n] == ',')
  {
    if s == "" || s[0] == ',' then 0 else 1 + CommaAt(s[1..])
  }

  /** The non-empty pieces between commas. */
  function Split(s: string): (r: seq<string>)
    ensures forall h :: h in r ==> h != "" && ',' !in h
    ensures forall h, c :: h in r && c in h ==> c in s
    decreases |s|
  {
    if s == "" then []
    else
      var n := CommaAt(s);
      var rest := if n < |s| then s[n + 1..] else "";
      if n == 0 then Split(rest) else [s[..n]] + Split(rest)
  }

  /** The loop that prints a hash list, on both the client and the metadata node. */
  method JoinHashes(hashes: seq<string>) returns (text: string)
    ensures text == Join(hashes)
  {
    text := "";
    var i := 0;
    while i < |hashes|
      invariant 0 <= i <= |hashes|
      invariant text == Join(hashes[..i])
    {
      JoinSnoc(hashes[..i], hashes[i]);
      assert hashes[..i + 1] == hashes[..i] + [hashes[i]];
      if i > 0 {
        text := text + ",";
      }
      text := text + hashes[i];
      i := i + 1;
    }
    assert hashes[..i] == hashes;
  }

  /** The loop that reads a hash list back, on both sides. */
  method SplitHashes(text: string) returns (hashes: seq<string>)
    ensures hashes == Split(text)
  {
    hashes := [];
    var rest := text;
    while rest != ""
      invariant hashes + Split(rest) == Split(text)
      decreases |rest|
    {
      var n := CommaAt(rest);
      var next := if n < |rest| then rest[n + 1..] else "";
      assert Split(rest) == (if n == 0 then [] else [rest[..n]]) + Split(next);
      if n != 0 {
        hashes := hashes + [rest[..n]];
      }
      rest := next;
    }
  }

  // ----- Commands and replies -----

  function PrintPut(m: FileMetadata): string {
    "PUT " + m.filename + " " + Decimal(m.fileSize) + " " + Decimal(m.chunkSize) + " " +
    Decimal(m.totalChunks) + " " + m.rootHash + " " + Join(m.chunkHashes)
  }

  /** What a metadata node understands of a PUT command. */
  function ParsePut(command: string): Option<FileMetadata> {
    var (_, s1) :- ReadWord(command);
    var (filename, s2) :- ReadWord(s1);
    var (fileSize, s3) :- ReadInt(s2, INT64_MIN, INT64_MAX);
    var (chunkSize, s4) :- ReadInt(s3, INT32_MIN, INT32_MAX);
    var (totalChunks, s5) :- ReadInt(s4, INT32_MIN, INT32_MAX);
    var (rootHash, s6) :- ReadWord(s5);
    var (hashes, _) :- ReadWord(s6);
    Some(FileMetadata(filename, fileSize, chunkSize, totalChunks, rootHash, Split(hashes)))
  }

  function PrintFound(m: FileMetadata): string {
    "FOUND " + Decimal(m.fileSize) + " " + Decimal(m.chunkSize) + " " +
    Decimal(m.totalChunks) + " " + m.rootHash + " " + Join(m.chunkHashes)
  }

  /** What a client understands of the reply to its GET for `filename`; None is a file not found. */
  function ParseFound(filename: string, response: string): Option<FileMetadata> {
    if |response| > 6 && response[..6] == "FOUND " then
      var (fileSize, s1) :- ReadInt(response[6..], INT64_MIN, INT64_MAX);
      var (chunkSize, s2) :- ReadInt(s1, INT32_MIN, INT32_MAX);
      var (totalChunks, s3) :- ReadInt(s2, INT32_MIN, INT32_MAX);
      var (rootHash, s4) :- ReadWord(s3);
      var (hashes, _) :- ReadWord(s4);
      Some(FileMetadata(filename, fileSize, chunkSize, totalChunks, rootHash, Split(hashes)))
    else None
  }

  /** The operation word of a command, empty when there is none. */
  function OpOf(command: string): string {
    var r := ReadWord(command);
    if r.Some? then r.value.0 else ""
  }

  /** The single-word argument of a GET or STORE command. */
  function ArgumentOf(command: string): Option<string> {
    var (_, s1) :- ReadWord(command);
    var (w, _) :- ReadWord(s1);
    Some(w)
  }

  /** The port of an UPDATE_PREV, UPDATE_NEXT or SET_SKIP command, the second word after an address. */
  function PortOf(command: string): Option<int> {
    var (_, s1) :- ReadWord(command);
    var (_, s2) :- ReadWord(s1);
    var (port, _) :- ReadInt(s2, INT32_MIN, INT32_MAX);
    Some(port)
  }

  // ----- Which metadata the protocol can carry -----

  predicate InRange(m: FileMetadata) {
    && INT64_MIN <= m.fileSize <= INT64_MAX
    && INT32_MIN <= m.chunkSize <= INT32_MAX
    && INT32_MIN <= m.totalChunks <= INT32_MAX
  }

  predicate HashListOk(hashes: seq<string>) {
    |hashes| > 0 && forall h :: h in hashes ==> Token(h) && ',' !in h
  }

  /** The part of the metadata that travels in both directions. */
  predicate BodyOk(m: FileMetadata) {
    InRange(m) && Token(m.rootHash) && HashListOk(m.chunkHashes)
  }

  predicate WellFormed(m: FileMetadata) {
    Token(m.filename) && BodyOk(m)
  }

  // ----- Reading back what was printed -----

  lemma {:induction false} JoinSnoc(hashes: seq<string>, h: string)
    ensures Join(hashes + [h]) == if |hashes| == 0 then h else Join(hashes) + "," + h
  {
    if |hashes| >= 1 {
      assert (hashes + [h])[1..] == hashes[1..] + [h];
      JoinSnoc(hashes[1..], h);
    }
  }

  lemma {:induction false} WordLengthOf(w: string, rest: string)
    requires NoSpace(w) && (rest == "" || IsSpace(rest[0]))
    ensures WordLength(w + rest) == |w|
  {
    if w != "" {
      assert (w + rest)[1..] == w[1..] + rest;
      WordLengthOf(w[1..], rest);
    } else {
      assert w + rest == rest;
    }
  }

  /** A printed word, after at most one separator, is read back. */
  lemma ReadPrintedWord(sep: string, w: string, rest: string)
    requires sep == "" || sep == " "
    requires Token(w) && (rest == "" || IsSpace(rest[0]))
    ensures ReadWord(sep + w + rest) == Some((w, rest))
  {
    var s := sep + w + rest;
    assert w[0] in w;
    if sep == " " {
      assert s[1..] == w + rest;
    } else {
      assert s == w + rest;
    }
    assert (w + rest)[0] == w[0];
    assert SkipSpaces(s) == w + rest;
    WordLengthOf(w, rest);
    assert (w + rest)[..|w|] == w && (w + rest)[|w|..] == rest;
  }

  lemma {:induction false} DigitsLengthOf(d: string, rest: string)
    requires forall i :: 0 <= i < |d| ==> IsDigit(d[i])
    requires rest == "" || !IsDigit(rest[0])
    ensures DigitsLength(d + rest) == |d|
  {
    if d != "" {
      assert (d + rest)[1..] == d[1..] + rest;
      DigitsLengthOf(d[1..], rest);
    } else {
      assert d + rest == rest;
    }
  }

  lemma {:induction false} ValueOfDecimal(n: nat)
    ensures Value(DecimalNat(n)) == n
  {
    var s := DecimalNat(n);
    if n < 10 {
      assert s[..|s| - 1] == "";
    } else {
      ValueOfDecimal(n / 10);
      assert s[..|s| - 1] == DecimalNat(n / 10);
    }
  }

  lemma ReadPrintedDigits(n: nat, rest: string)
    requires rest == "" || !IsDigit(rest[0])
    ensures ReadDigits(DecimalNat(n) + rest) == Some((n, rest))
  {
    var d := DecimalNat(n);
    DigitsLengthOf(d, rest);
    assert (d + rest)[..|d|] == d && (d + rest)[|d|..] == rest;
    ValueOfDecimal(n);
  }

  lemma SkipToNumber(sep: string, n: int, rest: string)
    requires sep == "" || sep == " "
    ensures SkipSpaces(sep + Decimal(n) + rest) == Decimal(n) + rest
  {
    var d := DecimalNat(if n < 0 then -n else n);
    var t := Decimal(n) + rest;
    assert IsDigit(d[0]);
    assert t[0] == (if n < 0 then '-' else d[0]);
    assert SkipSpaces(t) == t;
    if sep == " " {
      assert (sep + Decimal(n) + rest)[1..] == t;
    } else {
      assert sep + Decimal(n) + rest == t;
    }
  }

  /** A printed integer is read back when it fits the width it is read into. */
  lemma ReadPrintedInt(sep: string, n: int, rest: string, lo: int, hi: int)
    requires sep == "" || sep == " "
    requires lo <= n <= hi
    requires rest == "" || !IsDigit(rest[0])
    ensures ReadInt(sep + Decimal(n) + rest, lo, hi) == Some((n, rest))
  {
    SkipToNumber(sep, n, rest);
    ReadPrintedNumber(n, rest, lo, hi);
  }

  lemma ReadPrintedNumber(n: int, rest: string, lo: int, hi: int)
    requires lo <= n <= hi
    requires rest == "" || !IsDigit(rest[0])
    ensures ReadNumber(Decimal(n) + rest, lo, hi) == Some((n, rest))
  {
    var magnitude := if n < 0 then -n else n;
    var d := DecimalNat(magnitude);
    ReadPrintedDigits(magnitude, rest);
    assert IsDigit(d[0]);
    if n < 0 {
      assert ("-" + d + rest)[1..] == d + rest;
    } else {
      assert (d + rest)[0] == d[0];
    }
  }

  lemma {:induction false} CommaAtEnd(h: string, rest: string)
    requires ',' !in h && (rest == "" || rest[0] == ',')
    ensures CommaAt(h + rest) == |h|
  {
    if h != "" {
      assert (h + rest)[1..] == h[1..] + rest;
      CommaAtEnd(h[1..], rest);
    } else {
      assert h + rest == rest;
    }
  }

  lemma {:induction false} SplitJoin(hashes: seq<string>)
    requires forall h :: h in hashes ==> h != "" && ',' !in h
    ensures Split(Join(hashes)) == hashes
  {
    if |hashes| == 1 {
      CommaAtEnd(hashes[0], "");
      assert hashes[0] + "" == hashes[0];
    } else if |hashes| > 1 {
      var tail := "," + Join(hashes[1..]);
      assert Join(hashes) == hashes[0] + tail;
      CommaAtEnd(hashes[0], tail);
      assert (hashes[0] + tail)[|hashes[0]| + 1..] == Join(hashes[1..]);
      assert (hashes[0] + tail)[..|hashes[0]|] == hashes[0];
      forall h | h in hashes[1..]
        ensures h in hashes
      {
      }
      SplitJoin(hashes[1..]);
    }
  }

  lemma {:induction false} JoinToken(hashes: seq<string>)
    requires HashListOk(hashes)
    ensures Token(Join(hashes))
  {
    assert hashes[0] in hashes;
    if |hashes| > 1 {
      forall h | h in hashes[1..]
        ensures h in hashes
      {
      }
      JoinToken(hashes[1..]);
    }
  }

  /** The numbers, root hash and hash list shared by PUT and FOUND. */
  function Body(m: FileMetadata): string {
    Decimal(m.fileSize) + (" " + Decimal(m.chunkSize) + (" " + Decimal(m.totalChunks) + Hashes(m)))
  }

  function Hashes(m: FileMetadata): string {
    " " + m.rootHash + (" " + Join(m.chunkHashes) + "")
  }

  lemma ReadPrintedHashes(m: FileMetadata)
    requires Token(m.rootHash) && HashListOk(m.chunkHashes)
    ensures ReadWord(Hashes(m)) == Some((m.rootHash, " " + Join(m.chunkHashes) + ""))
    ensures ReadWord(" " + Join(m.chunkHashes) + "") == Some((Join(m.chunkHashes), ""))
    ensures Split(Join(m.chunkHashes)) == m.chunkHashes
  {
    JoinToken(m.chunkHashes);
    SplitJoin(m.chunkHashes);
    ReadPrintedWord(" ", Join(m.chunkHashes), "");
    ReadPrintedWord(" ", m.rootHash, " " + Join(m.chunkHashes) + "");
  }

  lemma ReadPrintedNumbers(m: FileMetadata, sep: string)
    requires InRange(m) && (sep == "" || sep == " ")
    ensures var s2 := " " + Decimal(m.totalChunks) + Hashes(m);
            var s1 := " " + Decimal(m.chunkSize) + s2;
            && ReadInt(sep + Body(m), INT64_MIN, INT64_MAX) == Some((m.fileSize, s1))
            && ReadInt(s1, INT32_MIN, INT32_MAX) == Some((m.chunkSize, s2))
            && ReadInt(s2, INT32_MIN, INT32_MAX) == Some((m.totalChunks, Hashes(m)))
  {
    var s2 := " " + Decimal(m.totalChunks) + Hashes(m);
    var s1 := " " + Decimal(m.chunkSize) + s2;
    SeparatorFirst(Decimal(m.totalChunks), Hashes(m));
    SeparatorFirst(Decimal(m.chunkSize), s2);
    assert Hashes(m)[0] == ' ';
    ReadPrintedInt(" ", m.totalChunks, Hashes(m), INT32_MIN, INT32_MAX);
    ReadPrintedInt(" ", m.chunkSize, s2, INT32_MIN, INT32_MAX);
    assert sep + Body(m) == sep + Decimal(m.fileSize) + s1;
    ReadPrintedInt(sep, m.fileSize, s1, INT64_MIN, INT64_MAX);
  }

  lemma SeparatorFirst(w: string, rest: string)
    ensures var s := " " + w + rest; s != "" && s[0] == ' ' && !IsDigit(s[0])
  {
  }

  lemma Regroup(a: string, b: string, c: string, d: string, e: string)
    ensures a + " " + b + " " + c + " " + d + " " + e == a + (" " + b + (" " + c + (" " + d + (" " + e + ""))))
  {
  }

  /** Something in front of a text of five fields. */
  lemma Prefixed(p: string, a: string, b: string, c: string, d: string, e: string)
    ensures p + a + " " + b + " " + c + " " + d + " " + e == p + (a + " " + b + " " + c + " " + d + " " + e)
  {
    var ab := a + " " + b;
    assert p + a + " " + b == p + ab;
    var abc := ab + " " + c;
    assert p + ab + " " + c == p + abc;
    var abcd := abc + " " + d;
    assert p + abc + " " + d == p + abcd;
    assert p + abcd + " " + e == p + (abcd + " " + e);
  }

  lemma PutText(m: FileMetadata)
    ensures PrintPut(m) == "" + "PUT" + (" " + m.filename + (" " + Body(m)))
  {
    hide Decimal, Join;
    var a, b, c := Decimal(m.fileSize), Decimal(m.chunkSize), Decimal(m.totalChunks);
    Regroup(a, b, c, m.rootHash, Join(m.chunkHashes));
    Prefixed("PUT " + m.filename + " ", a, b, c, m.rootHash, Join(m.chunkHashes));
    assert "PUT " + m.filename + " " + Body(m) == "" + "PUT" + (" " + m.filename + (" " + Body(m)));
  }

  lemma FoundText(m: FileMetadata)
    ensures PrintFound(m) == "FOUND " + Body(m)
  {
    var a, b, c := Decimal(m.fileSize), Decimal(m.chunkSize), Decimal(m.totalChunks);
    Regroup(a, b, c, m.rootHash, Join(m.chunkHashes));
    assert PrintFound(m) == "FOUND " + (a + " " + b + " " + c + " " + m.rootHash + " " + Join(m.chunkHashes));
  }

  lemma PutRoundTrip(m: FileMetadata)
    requires WellFormed(m)
    ensures OpOf(PrintPut(m)) == "PUT"
    ensures ParsePut(PrintPut(m)) == Some(m)
  {
    PutText(m);
    ReadPrintedWord("", "PUT", " " + m.filename + (" " + Body(m)));
    ReadPrintedWord(" ", m.filename, " " + Body(m));
    ReadPrintedNumbers(m, " ");
    ReadPrintedHashes(m);
  }

  lemma FoundRoundTrip(m: FileMetadata)
    requires BodyOk(m)
    ensures ParseFound(m.filename, PrintFound(m)) == Some(m)
  {
    FoundText(m);
    var response := PrintFound(m);
    assert response[6..] == "" + Body(m) && response[..6] == "FOUND ";
    ReadPrintedNumbers(m, "");
    ReadPrintedHashes(m);
  }

  // ----- Nothing else survives -----

  /** Reading words never invents characters. */
  lemma {:induction false} SkipSpacesSuffix(s: string)
    ensures var t := SkipSpaces(s); t == s[|s| - |t|..] && (t != "" ==> !IsSpace(t[0]))
  {
    if s != "" && IsSpace(s[0]) {
      SkipSpacesSuffix(s[1..]);
    }
  }

  /** An empty hash list prints as nothing, and the reader then finds no hash word. */
  lemma NoHashesNoWord(m: FileMetadata, s: string, root: string, rest: string)
    requires m.chunkHashes == []
    requires s == Hashes(m) && Token(m.rootHash)
    requires ReadWord(s) == Some((root, rest))
    ensures ReadWord(rest).None?
  {
    ReadPrintedWord(" ", m.rootHash, " ");
    assert s == " " + m.rootHash + " ";
    assert rest == " ";
  }

  lemma ParsedPutOk(command: string)
    requires ParsePut(command).Some?
    ensures var m := ParsePut(command).value;
            Token(m.filename) && InRange(m) && Token(m.rootHash) &&
            forall h :: h in m.chunkHashes ==> Token(h) && ',' !in h
  {
    var s1 := ReadWord(command).value.1;
    var s2 := ReadWord(s1).value.1;
    var s3 := ReadInt(s2, INT64_MIN, INT64_MAX).value.1;
    var s4 := ReadInt(s3, INT32_MIN, INT32_MAX).value.1;
    var s5 := ReadInt(s4, INT32_MIN, INT32_MAX).value.1;
    var s6 := ReadWord(s5).value.1;
    SplitTokens(ReadWord(s6).value.0);
  }

  lemma SplitTokens(s: string)
    requires NoSpace(s)
    ensures forall h :: h in Split(s) ==> Token(h) && ',' !in h
  {
  }

  lemma ParsedFoundOk(filename: string, response: string)
    requires ParseFound(filename, response).Some?
    ensures var m := ParseFound(filename, response).value;
            m.filename == filename && InRange(m) && Token(m.rootHash) &&
            forall h :: h in m.chunkHashes ==> Token(h) && ',' !in h
  {
    var s1 := ReadInt(response[6..], INT64_MIN, INT64_MAX).value.1;
    var s2 := ReadInt(s1, INT32_MIN, INT32_MAX).value.1;
    var s3 := ReadInt(s2, INT32_MIN, INT32_MAX).value.1;
    var s4 := ReadWord(s3).value.1;
    SplitTokens(ReadWord(s4).value.0);
  }

  /** A PUT command carries its metadata to a node unchanged if and only if the metadata is
      well formed; a file name with a space in it, for one, does not survive. */
  lemma PutSurvivesIff(m: FileMetadata)
    ensures ParsePut(PrintPut(m)) == Some(m) <==> WellFormed(m)
  {
    if WellFormed(m) {
      PutRoundTrip(m);
    } else if ParsePut(PrintPut(m)) == Some(m) {
      ParsedPutOk(PrintPut(m));
      assert m.chunkHashes == [];
      PutText(m);
      ReadPrintedWord("", "PUT", " " + m.filename + (" " + Body(m)));
      ReadPrintedWord(" ", m.filename, " " + Body(m));
      ReadPrintedNumbers(m, " ");
      var r := ReadWord(Hashes(m)).value;
      NoHashesNoWord(m, Hashes(m), r.0, r.1);
      assert false;
    }
  }

  /** A FOUND reply carries the rest of the metadata back unchanged under the same condition. */
  lemma FoundSurvivesIff(m: FileMetadata)
    ensures ParseFound(m.filename, PrintFound(m)) == Some(m) <==> BodyOk(m)
  {
    if BodyOk(m) {
      FoundRoundTrip(m);
    } else if ParseFound(m.filename, PrintFound(m)) == Some(m) {
      ParsedFoundOk(m.filename, PrintFound(m));
      assert m.chunkHashes == [];
      FoundText(m);
      assert PrintFound(m)[6..] == "" + Body(m);
      ReadPrintedNumbers(m, "");
      var r := ReadWord(Hashes(m)).value;
      NoHashesNoWord(m, Hashes(m), r.0, r.1);
      assert false;
    }
  }

  /** A command with one argument, GET or STORE, carries the argument if and only if it is a token. */
  lemma ArgumentSurvivesIff(op: string, w: string)
    requires Token(op)
    ensures OpOf(op + " " + w) == op
    ensures ArgumentOf(op + " " + w) == Some(w) <==> Token(w)
  {
    assert op + " " + w == "" + op + (" " + w);
    ReadPrintedWord("", op, " " + w);
    if Token(w) {
      assert " " + w == " " + w + "";
      ReadPrintedWord(" ", w, "");
    }
  }

  /** A rewiring command carries its port. */
  lemma PortSurvives(op: string, address: string, port: int)
    requires Token(op) && Token(address) && -0x8000_0000 <= port < 0x8000_0000
    ensures OpOf(op + " " + address + " " + Decimal(port)) == op
    ensures PortOf(op + " " + address + " " + Decimal(port)) == Some(port)
  {
    hide Decimal, ReadWord, ReadInt, Token;
    var number := " " + Decimal(port) + "";
    assert op + " " + address + " " + Decimal(port) == "" + op + (" " + address + number);
    ReadPrintedWord("", op, " " + address + number);
    ReadPrintedWord(" ", address, number);
    ReadPrintedInt(" ", port, "", INT32_MIN, INT32_MAX);
  }

  /** Once parsed, metadata keeps its meaning over any number of hops: a node that stores what
      it parsed and answers with what it stored gives the client what was uploaded. */
  lemma MetadataSurvives(m: FileMetadata)
    requires WellFormed(m)
    ensures ParsePut(PrintPut(m)).Some?
    ensures ParseFound(m.filename, PrintFound(ParsePut(PrintPut(m)).value)) == Some(m)
  {
    PutRoundTrip(m);
    FoundRoundTrip(m);
  }
}
