/** Text artifacts: key=value files, decimal numbers and hexadecimal strings. */
module Text {
  import opened Bytes
  import opened Results

  // ------------------------------------------------------------- key=value files

  type Kv = map<string, string>

  function IndexOf(s: string, c: char): (at: Option<nat>)
    ensures at.Some? ==> at.value < |s| && s[at.value] == c
  {
    if s == "" then None
    else if s[0] == c then Some(0)
    else match IndexOf(s[1..], c)
         case None => None
         case Some(i) => Some(i + 1)
  }

  function Chomp(line: string): string {
    if line != "" && line[|line| - 1] == '\r' then line[..|line| - 1] else line
  }

  /** `str::lines`: split at newlines, dropping a carriage return before each. */
  function Lines(s: string): seq<string>
    decreases |s|
  {
    if s == "" then []
    else match IndexOf(s, '\n')
         case None => [s]
         case Some(i) => [Chomp(s[..i])] + Lines(s[i + 1..])
  }

  predicate Skipped(line: string) {
    line == "" || line[0] == '#'
  }

  /** The coordinator's reader: lines without `=` are ignored, a later key wins. */
  function KvOf(lines: seq<string>): Kv {
    if lines == [] then map[]
    else
      var before, line := KvOf(lines[..|lines| - 1]), lines[|lines| - 1];
      if Skipped(line) then before
      else match IndexOf(line, '=')
           case None => before
           case Some(i) => before[line[..i] := line[i + 1..]]
  }

  /** The ceremony tool's reader: such a line is an error, reported with its number. */
  function StrictKv(lines: seq<string>, n: nat): Result<Kv, nat>
    requires n <= |lines|
  {
    if n == 0 then Ok(map[])
    else match StrictKv(lines, n - 1)
         case Err(e) => Err(e)
         case Ok(before) =>
           var line := lines[n - 1];
           if Skipped(line) then Ok(before)
           else match IndexOf(line, '=')
                case None => Err(n)
                case Some(i) => Ok(before[line[..i] := line[i + 1..]])
  }

  function ParseKv(s: string): Kv {
    KvOf(Lines(s))
  }

  function ReadKv(s: string): Result<Kv, nat> {
    StrictKv(Lines(s), |Lines(s)|)
  }

  method ReadKvFile(s: string) returns (res: Result<Kv, nat>)
    ensures res == ReadKv(s)
  {
    var lines := Lines(s);
    var out: Kv := map[];
    for i := 0 to |lines|
      invariant StrictKv(lines, i) == Ok(out)
    {
      var line := lines[i];
      if !Skipped(line) {
        var eq := IndexOf(line, '=');
        if eq.None? {
          StrictStops(lines, i + 1, |lines|);
          return Err(i + 1);
        }
        out := out[line[..eq.value] := line[eq.value + 1..]];
      }
    }
    res := Ok(out);
  }

  lemma {:induction false} StrictStops(lines: seq<string>, m: nat, n: nat)
    requires m <= n <= |lines| && StrictKv(lines, m).Err?
    ensures StrictKv(lines, n) == StrictKv(lines, m)
  {
    if m < n {
      StrictStops(lines, m, n - 1);
    }
  }

  lemma {:induction false} StrictAgrees(lines: seq<string>, n: nat)
    requires n <= |lines| && StrictKv(lines, n).Ok?
    ensures KvOf(lines[..n]) == StrictKv(lines, n).value
  {
    if n > 0 {
      StrictAgrees(lines, n - 1);
      assert lines[..n][..n - 1] == lines[..n - 1];
    }
  }

  /** Where the strict reader succeeds both readers return the same map. */
  lemma ReadersAgree(s: string)
    requires ReadKv(s).Ok?
    ensures ParseKv(s) == ReadKv(s).value
  {
    StrictAgrees(Lines(s), |Lines(s)|);
    assert Lines(s)[..|Lines(s)|] == Lines(s);
  }

  lemma {:induction false} FirstIndex(s: string, c: char)
    ensures IndexOf(s, c).None? ==> c !in s
    ensures IndexOf(s, c).Some? ==> c !in s[..IndexOf(s, c).value]
  {
    if s != "" && s[0] != c {
      FirstIndex(s[1..], c);
      assert s == [s[0]] + s[1..];
      if IndexOf(s, c).Some? {
        var i := IndexOf(s, c).value;
        assert s[..i] == [s[0]] + s[1..][..i - 1];
      }
    }
  }

  lemma {:induction false} LinesHaveNoNewline(s: string, n: nat)
    requires n < |Lines(s)|
    ensures '\n' !in Lines(s)[n]
    decreases |s|
  {
    FirstIndex(s, '\n');
    if n > 0 {
      LinesHaveNoNewline(s[IndexOf(s, '\n').value + 1..], n - 1);
    }
  }

  lemma {:induction false} ValuesFromLines(lines: seq<string>, n: nat, key: string)
    requires n <= |lines| && forall i :: 0 <= i < |lines| ==> '\n' !in lines[i]
    requires StrictKv(lines, n).Ok? && key in StrictKv(lines, n).value
    ensures '\n' !in StrictKv(lines, n).value[key]
  {
    var before := StrictKv(lines, n - 1);
    if key in before.value && StrictKv(lines, n).value[key] == before.value[key] {
      ValuesFromLines(lines, n - 1, key);
    }
  }

  lemma ValueIsOneLine(file: string, key: string)
    requires ReadKv(file).Ok? && key in ReadKv(file).value
    ensures '\n' !in ReadKv(file).value[key]
  {
    forall i | 0 <= i < |Lines(file)| ensures '\n' !in Lines(file)[i] {
      LinesHaveNoNewline(file, i);
    }
    ValuesFromLines(Lines(file), |Lines(file)|, key);
  }

  // ---------------------------------------------------- what the readers return

  /** How a text falls into lines: at each newline, a carriage return before it dropped; the
      last line needs no newline and keeps its carriage return. */
  lemma LinesMean(line: string, rest: string)
    requires '\n' !in line
    ensures Lines("") == [] && (line != "" ==> Lines(line) == [line])
    ensures Lines(line + "\r\n" + rest) == [line] + Lines(rest)
    ensures (line == "" || line[|line| - 1] != '\r') ==> Lines(line + "\n" + rest) == [line] + Lines(rest)
  {
    FirstLine(line, rest);
    FirstIndex(line, '\n');
    ReturnLine(line, rest);
  }

  lemma ReturnLine(line: string, rest: string)
    requires '\n' !in line
    ensures Lines(line + "\r\n" + rest) == [line] + Lines(rest)
  {
    var first := line + ['\r'];
    TwoAtEnd(line);
    FirstLine(first, rest);
    assert Chomp(first) == line;
  }

  lemma TwoAtEnd(line: string)
    ensures line + ['\r'] + "\n" == line + "\r\n"
  {
  }

  /** The line gives the key this value: no comment, and the key ends at the first `=`. */
  ghost predicate Gives(line: string, key: string, value: string) {
    line == key + "=" + value && '=' !in key && line[0] != '#'
  }

  /** A line that the strict reader reports. */
  predicate BadLine(line: string) {
    line != "" && line[0] != '#' && '=' !in line
  }

  lemma LineGives(line: string, key: string, value: string)
    ensures Gives(line, key, value) <==>
      !Skipped(line) && IndexOf(line, '=').Some?
      && key == line[..IndexOf(line, '=').value] && value == line[IndexOf(line, '=').value + 1..]
  {
    FirstIndex(line, '=');
    if Gives(line, key, value) {
      IndexOfFirst(key, '=', value);
      assert line == key + ['='] + value;
    }
    if IndexOf(line, '=').Some? {
      var i := IndexOf(line, '=').value;
      assert line == line[..i] + ['='] + line[i + 1..];
    }
  }

  /** The last of the first `n` lines that gives the key a value gives it this one. */
  ghost predicate GivesLast(lines: seq<string>, n: nat, key: string, value: string)
    requires n <= |lines|
  {
    exists i: nat :: i < n && Gives(lines[i], key, value)
      && forall j: nat, other: string :: i < j < n ==> !Gives(lines[j], key, other)
  }

  lemma GivesMore(lines: seq<string>, n: nat, key: string, value: string)
    requires n < |lines|
    ensures GivesLast(lines, n + 1, key, value) <==>
      Gives(lines[n], key, value)
      || (GivesLast(lines, n, key, value) && forall other: string :: !Gives(lines[n], key, other))
  {
    if Gives(lines[n], key, value) {
      assert GivesLast(lines, n + 1, key, value);
    }
  }

  /** A key has a value exactly if the last line that gives it one gives it that. */
  lemma {:induction false} KvMeans(lines: seq<string>, n: nat, key: string, value: string)
    requires n <= |lines|
    ensures key in KvOf(lines[..n]) && KvOf(lines[..n])[key] == value <==> GivesLast(lines, n, key, value)
  {
    if n > 0 {
      var line := lines[n - 1];
      KvMeans(lines, n - 1, key, value);
      GivesMore(lines, n - 1, key, value);
      assert lines[..n][..n - 1] == lines[..n - 1];
      LineGives(line, key, value);
      if other: string :| Gives(line, key, other) {
        LineGives(line, key, other);
      }
      KeyOfLine(line, key);
    }
  }

  lemma KeyOfLine(line: string, key: string)
    ensures (!Skipped(line) && IndexOf(line, '=').Some? && key == line[..IndexOf(line, '=').value])
      <==> exists value :: Gives(line, key, value)
  {
    if !Skipped(line) && IndexOf(line, '=').Some? {
      LineGives(line, key, line[IndexOf(line, '=').value + 1..]);
    }
    if value :| Gives(line, key, value) {
      LineGives(line, key, value);
    }
  }

  /** The strict reader fails at the first line that is neither empty, nor a comment, nor
      has an `=`, and otherwise returns what the lenient one does. */
  lemma {:induction false} StrictMeans(lines: seq<string>, n: nat)
    requires n <= |lines|
    ensures match StrictKv(lines, n)
            case Ok(kv) => kv == KvOf(lines[..n]) && forall i :: 0 <= i < n ==> !BadLine(lines[i])
            case Err(at) => 1 <= at <= n && BadLine(lines[at - 1]) && forall i :: 0 <= i < at - 1 ==> !BadLine(lines[i])
  {
    if n > 0 {
      StrictMeans(lines, n - 1);
      FirstIndex(lines[n - 1], '=');
      assert lines[..n][..n - 1] == lines[..n - 1];
    }
  }

  /** What a file read strictly says of a key. */
  lemma FileMeans(file: string, key: string, value: string)
    ensures match ReadKv(file)
            case Ok(kv) => key in kv && kv[key] == value <==> GivesLast(Lines(file), |Lines(file)|, key, value)
            case Err(at) => 1 <= at <= |Lines(file)| && BadLine(Lines(file)[at - 1])
    ensures key in ParseKv(file) && ParseKv(file)[key] == value <==> GivesLast(Lines(file), |Lines(file)|, key, value)
  {
    var lines := Lines(file);
    assert lines[..|lines|] == lines;
    StrictMeans(lines, |lines|);
    KvMeans(lines, |lines|, key, value);
  }

  // ------------------------------------------------------------ writing such files

  type Pairs = seq<(string, string)>

  function LineOf(pair: (string, string)): string {
    pair.0 + "=" + pair.1
  }

  function Render(pairs: Pairs): string {
    if pairs == [] then "" else LineOf(pairs[0]) + "\n" + Render(pairs[1..])
  }

  method WriteKvFile(pairs: Pairs) returns (out: string)
    ensures out == Render(pairs)
  {
    out := "";
    for i := 0 to |pairs|
      invariant Render(pairs) == out + Render(pairs[i..])
    {
      out := out + pairs[i].0;
      out := out + "=";
      out := out + pairs[i].1;
      out := out + "\n";
      assert pairs[i..][1..] == pairs[i + 1..];
    }
  }

  /** Keys that a reader finds again: nonempty, not a comment, free of `=` and newlines. */
  predicate PlainKey(key: string) {
    key != "" && key[0] != '#' && '=' !in key && '\n' !in key
  }

  predicate Writable(pairs: Pairs) {
    forall i :: 0 <= i < |pairs| ==> PlainKey(pairs[i].0) && '\n' !in pairs[i].1
  }

  lemma {:induction false} IndexOfFirst(a: string, c: char, b: string)
    requires c !in a
    ensures IndexOf(a + [c] + b, c) == Some(|a|)
  {
    var s := a + [c] + b;
    if a != "" {
      IndexOfFirst(a[1..], c, b);
      assert s[1..] == a[1..] + [c] + b;
    }
  }

  function ReadBack(pairs: Pairs): (lines: seq<string>)
    ensures |lines| == |pairs|
  {
    seq(|pairs|, i requires 0 <= i < |pairs| => LineOf((pairs[i].0, Chomp(pairs[i].1))))
  }

  lemma FirstLine(line: string, rest: string)
    requires '\n' !in line
    ensures Lines(line + "\n" + rest) == [Chomp(line)] + Lines(rest)
  {
    var s := line + ['\n'] + rest;
    IndexOfFirst(line, '\n', rest);
    assert s[..|line|] == line && s[|line| + 1..] == rest;
  }

  lemma {:induction false} RenderedLines(pairs: Pairs)
    requires Writable(pairs)
    ensures Lines(Render(pairs)) == ReadBack(pairs)
  {
    if pairs != [] {
      FirstLine(LineOf(pairs[0]), Render(pairs[1..]));
      RenderedLines(pairs[1..]);
      ChompLine(pairs[0]);
      ReadBackCons(pairs);
    }
  }

  lemma ChompLine(pair: (string, string))
    ensures Chomp(LineOf(pair)) == LineOf((pair.0, Chomp(pair.1)))
  {
  }

  lemma ReadBackCons(pairs: Pairs)
    requires pairs != []
    ensures ReadBack(pairs) == [LineOf((pairs[0].0, Chomp(pairs[0].1)))] + ReadBack(pairs[1..])
  {
  }

  function KvMap(pairs: Pairs): Kv {
    if pairs == [] then map[]
    else
      var last := pairs[|pairs| - 1];
      KvMap(pairs[..|pairs| - 1])[last.0 := Chomp(last.1)]
  }

  lemma {:induction false} ReadBackLines(pairs: Pairs, n: nat)
    requires Writable(pairs) && n <= |pairs|
    ensures StrictKv(ReadBack(pairs), n) == Ok(KvMap(pairs[..n]))
  {
    if n > 0 {
      ReadBackLines(pairs, n - 1);
      var (key, value) := pairs[n - 1];
      var line := ReadBack(pairs)[n - 1];
      assert line == key + ['='] + Chomp(value);
      IndexOfFirst(key, '=', Chomp(value));
      assert line[..|key|] == key && line[|key| + 1..] == Chomp(value);
      assert pairs[..n][..n - 1] == pairs[..n - 1];
    }
  }

  /** Reading a written file gives the pairs back, each value without one trailing
      carriage return. */
  lemma WrittenFileReads(pairs: Pairs)
    requires Writable(pairs)
    ensures ReadKv(Render(pairs)) == Ok(KvMap(pairs))
  {
    RenderedLines(pairs);
    ReadBackLines(pairs, |pairs|);
    assert pairs[..|pairs|] == pairs;
  }

  predicate DistinctKeys(pairs: Pairs) {
    forall i, j :: 0 <= i < j < |pairs| ==> pairs[i].0 != pairs[j].0
  }

  lemma {:induction false} LookUp(pairs: Pairs, i: nat)
    requires DistinctKeys(pairs) && i < |pairs|
    ensures pairs[i].0 in KvMap(pairs) && KvMap(pairs)[pairs[i].0] == Chomp(pairs[i].1)
  {
    var n := |pairs| - 1;
    if i < n {
      LookUp(pairs[..n], i);
    }
  }

  // -------------------------------------------------------------------- decimals

  predicate IsDigit(c: char) {
    '0' <= c <= '9'
  }

  function DigitValue(c: char): nat
    requires IsDigit(c)
  {
    c as int - '0' as int
  }

  predicate AllDigits(s: string) {
    forall i :: 0 <= i < |s| ==> IsDigit(s[i])
  }

  function Digits(s: string): nat
    requires AllDigits(s)
  {
    if s == "" then 0 else 10 * Digits(s[..|s| - 1]) + DigitValue(s[|s| - 1])
  }

  function ParseDigits(s: string): Option<nat> {
    if s != "" && AllDigits(s) then Some(Digits(s)) else None
  }

  const USIZE: nat := 0x1_0000_0000_0000_0000

  /** `str::parse::<usize>`: an optional plus sign, digits, in range. */
  function ParseUsize(s: string): Option<nat> {
    match ParseDigits(if s != "" && s[0] == '+' then s[1..] else s)
    case None => None
    case Some(n) => if n < USIZE then Some(n) else None
  }

  /** `str::parse::<i64>`. */
  function ParseI64(s: string): Option<int> {
    var negative := s != "" && s[0] == '-';
    match ParseDigits(if s != "" && (s[0] == '+' || s[0] == '-') then s[1..] else s)
    case None => None
    case Some(n) =>
      if negative then (if n <= USIZE / 2 then Some(0 - n) else None)
      else if n < USIZE / 2 then Some(n) else None
  }

  /** A round number that both parsers accept is the same number to both. */
  lemma SameNumber(s: string)
    requires ParseUsize(s).Some? && ParseI64(s).Some?
    ensures ParseUsize(s).value == ParseI64(s).value
  {
    assert s[0] == '-' ==> !IsDigit(s[0]);
  }

  function Decimal(n: nat): (s: string)
    ensures s != "" && AllDigits(s)
  {
    var last := [(n % 10 + '0' as int) as char];
    if n < 10 then last else Decimal(n / 10) + last
  }

  lemma {:induction false} DecimalDigits(n: nat)
    ensures Digits(Decimal(n)) == n
  {
    if n >= 10 {
      DecimalDigits(n / 10);
      assert Decimal(n)[..|Decimal(n)| - 1] == Decimal(n / 10);
    } else {
      assert Decimal(n)[..0] == "";
    }
  }

  lemma DecimalParses(n: nat)
    requires n < USIZE
    ensures ParseUsize(Decimal(n)) == Some(n)
  {
    DecimalDigits(n);
    assert IsDigit(Decimal(n)[0]);
  }

  lemma DecimalParsesSigned(n: nat)
    requires n < USIZE / 2
    ensures ParseI64(Decimal(n)) == Some(n)
  {
    DecimalDigits(n);
    assert IsDigit(Decimal(n)[0]);
  }

  function Ten(n: nat): nat {
    if n == 0 then 1 else 10 * Ten(n - 1)
  }

  /** A digit is worth its value times ten to the number of digits after it. */
  lemma {:induction false} DigitsFront(c: char, s: string)
    requires IsDigit(c) && AllDigits(s)
    ensures AllDigits([c] + s) && Digits([c] + s) == DigitValue(c) * Ten(|s|) + Digits(s)
  {
    if s == "" {
      assert [c][..0] == "";
    } else {
      var n := |s| - 1;
      DigitsFront(c, s[..n]);
      assert ([c] + s)[..|s|] == [c] + s[..n];
      assert 10 * (DigitValue(c) * Ten(n)) == DigitValue(c) * Ten(|s|);
    }
  }

  /** A decimal has the value of its number and no zero in front. */
  lemma {:induction false} DecimalMeans(n: nat)
    ensures Digits(Decimal(n)) == n && (Decimal(n)[0] == '0' <==> n == 0)
    ensures forall d: nat :: d < 10 ==> Decimal(d) == ["0123456789"[d]]
  {
    DecimalDigits(n);
    if n >= 10 {
      DecimalMeans(n / 10);
    }
  }

  /** The two number parsers: an optional sign, one or more digits, and the range. */
  lemma ParsersMean(s: string, n: int)
    ensures ParseUsize(s) == Some(n) <==>
      n < 0x1_0000_0000_0000_0000 && (Spells(s, "", n) || Spells(s, "+", n))
    ensures ParseI64(s) == Some(n) <==>
      -0x8000_0000_0000_0000 <= n < 0x8000_0000_0000_0000 && (Spells(s, "", n) || Spells(s, "+", n) || Spells(s, "-", -n))
  {
    if s != "" {
      assert s == [s[0]] + s[1..];
      assert IsDigit(s[0]) ==> s[0] != '+' && s[0] != '-';
    }
    SpellsOne(s, "", n);
    SpellsOne(s, "+", n);
    SpellsOne(s, "-", -n);
  }

  /** The text is a sign and then digits of that value. */
  ghost predicate Spells(s: string, sign: string, n: int) {
    exists digits: string :: s == sign + digits && IsNumeral(digits, n)
  }

  ghost predicate IsNumeral(digits: string, n: int) {
    digits != "" && AllDigits(digits) && Digits(digits) == n
  }

  lemma SpellsOne(s: string, sign: string, n: int)
    requires |sign| <= 1
    ensures Spells(s, sign, n) <==> sign <= s && IsNumeral(s[|sign|..], n)
  {
    if sign <= s {
      assert s == sign + s[|sign|..];
    }
    if Spells(s, sign, n) {
      var digits :| s == sign + digits && IsNumeral(digits, n);
      assert s[|sign|..] == digits;
    }
  }

  // ------------------------------------------------------------------ hexadecimal

  function NibbleToHex(n: int): char
    requires 0 <= n < 16
  {
    if n < 10 then (n + '0' as int) as char else (n - 10 + 'a' as int) as char
  }

  function HexValue(c: char): (digit: Option<nat>)
    ensures digit.Some? ==> digit.value < 16
  {
    if '0' <= c <= '9' then Some(c as int - '0' as int)
    else if 'a' <= c <= 'f' then Some(c as int - 'a' as int + 10)
    else if 'A' <= c <= 'F' then Some(c as int - 'A' as int + 10)
    else None
  }

  function HexEncode(bytes: seq<byte>): (s: string)
    ensures |s| == 2 * |bytes|
  {
    if bytes == [] then ""
    else
      var n := |bytes| - 1;
      HexEncode(bytes[..n]) + [NibbleToHex(bytes[n] / 16), NibbleToHex(bytes[n] % 16)]
  }

  /** Pairs from the front; stops at the first bad digit or a lone last one. */
  function HexDecode(s: string): Option<seq<byte>> {
    if s == "" then Some([])
    else if |s| == 1 then None
    else
      var n := |s| - 2;
      match HexDecode(s[..n])
      case None => None
      case Some(bytes) =>
        var high, low := HexValue(s[n]), HexValue(s[n + 1]);
        if high.None? || low.None? then None
        else Some(bytes + [16 * high.value + low.value])
  }

  method HexEncodeLoop(bytes: seq<byte>) returns (s: string)
    ensures s == HexEncode(bytes)
  {
    s := "";
    for i := 0 to |bytes|
      invariant s == HexEncode(bytes[..i])
    {
      assert bytes[..i + 1][..i] == bytes[..i];
      s := s + [NibbleToHex(bytes[i] / 16)];
      s := s + [NibbleToHex(bytes[i] % 16)];
    }
    assert bytes[..|bytes|] == bytes;
  }

  method HexDecodeLoop(s: string) returns (res: Option<seq<byte>>)
    ensures res == HexDecode(s)
  {
    if |s| % 2 != 0 {
      OddHex(s);
      return None;
    }
    var out: seq<byte> := [];
    var i := 0;
    while i < |s|
      invariant i % 2 == 0 && 0 <= i <= |s|
      invariant HexDecode(s[..i]) == Some(out)
    {
      var high, low := HexValue(s[i]), HexValue(s[i + 1]);
      HexPair(s, i);
      if high.None? || low.None? {
        BadHex(s, i + 2, |s|);
        return None;
      }
      out := out + [16 * high.value + low.value];
      i := i + 2;
    }
    assert s[..|s|] == s;
    res := Some(out);
  }

  /** Decoding one pair more. */
  lemma HexPair(s: string, i: nat)
    requires i + 2 <= |s| && HexDecode(s[..i]).Some?
    ensures var high, low := HexValue(s[i]), HexValue(s[i + 1]);
      HexDecode(s[..i + 2]) == (if high.None? || low.None? then None
                                else Some(HexDecode(s[..i]).value + [16 * high.value + low.value]))
  {
    assert s[..i + 2][..i] == s[..i];
  }

  lemma {:induction false} OddHex(s: string)
    requires |s| % 2 != 0
    ensures HexDecode(s).None?
  {
    if |s| > 1 {
      OddHex(s[..|s| - 2]);
    }
  }

  lemma {:induction false} BadHex(s: string, m: nat, n: nat)
    requires m <= n <= |s| && (n - m) % 2 == 0
    requires HexDecode(s[..m]).None?
    ensures HexDecode(s[..n]).None?
  {
    if m < n {
      BadHex(s, m, n - 2);
      assert s[..n][..n - 2] == s[..n - 2];
    }
  }

  lemma HexNibble(n: int)
    requires 0 <= n < 16
    ensures HexValue(NibbleToHex(n)) == Some(n)
  {
  }

  lemma HexOfLast(bytes: seq<byte>)
    requires bytes != []
    ensures var n, s := |bytes| - 1, HexEncode(bytes);
      s[..2 * n] == HexEncode(bytes[..n]) && s[..2 * n + 2] == s
      && s[2 * n] == NibbleToHex(bytes[n] / 16) && s[2 * n + 1] == NibbleToHex(bytes[n] % 16)
  {
    var n := |bytes| - 1;
    TwoMore(HexEncode(bytes[..n]), NibbleToHex(bytes[n] / 16), NibbleToHex(bytes[n] % 16));
  }

  lemma TwoMore(s: string, x: char, y: char)
    ensures var t := s + [x, y];
      t[..|s|] == s && t[..|s| + 2] == t && t[|s|] == x && t[|s| + 1] == y
  {
  }

  lemma {:induction false} HexRoundTrip(bytes: seq<byte>)
    ensures HexDecode(HexEncode(bytes)) == Some(bytes)
  {
    if bytes != [] {
      var n, s := |bytes| - 1, HexEncode(bytes);
      HexOfLast(bytes);
      HexRoundTrip(bytes[..n]);
      HexPair(s, 2 * n);
      HexNibble(bytes[n] / 16);
      HexNibble(bytes[n] % 16);
      AppendedByte(bytes[..n], bytes[n] / 16, bytes[n] % 16, bytes);
    }
  }

  lemma HexInjective(a: seq<byte>, b: seq<byte>)
    requires HexEncode(a) == HexEncode(b)
    ensures a == b
  {
    HexRoundTrip(a);
    HexRoundTrip(b);
  }

  /** The two digits of each byte, high one first, in lower case. */
  lemma {:induction false} HexDigitsOf(bytes: seq<byte>, i: nat)
    requires i < |bytes|
    ensures HexEncode(bytes)[2 * i] == "0123456789abcdef"[bytes[i] / 16]
    ensures HexEncode(bytes)[2 * i + 1] == "0123456789abcdef"[bytes[i] % 16]
  {
    HexOfLast(bytes);
    if i < |bytes| - 1 {
      HexDigitsOf(bytes[..|bytes| - 1], i);
    }
  }

  /** A hexadecimal digit of either case. */
  predicate IsHexDigit(c: char, v: nat) {
    v < 16 && (c == "0123456789abcdef"[v] || c == "0123456789ABCDEF"[v])
  }

  lemma HexValueMeans(c: char, v: nat)
    ensures HexValue(c) == Some(v) <==> IsHexDigit(c, v)
  {
  }

  ghost predicate HexPairs(s: string, bytes: seq<byte>) {
    |s| == 2 * |bytes|
    && forall i :: 0 <= i < |bytes| ==> IsHexDigit(s[2 * i], bytes[i] / 16) && IsHexDigit(s[2 * i + 1], bytes[i] % 16)
  }

  /** A text decodes to exactly the bytes whose digits it spells, in either case. */
  lemma {:induction false} HexDecodeMeans(s: string, bytes: seq<byte>)
    ensures HexDecode(s) == Some(bytes) <==> HexPairs(s, bytes)
  {
    if |s| >= 2 && bytes != [] {
      var n, m := |s| - 2, |bytes| - 1;
      HexDecodeMeans(s[..n], bytes[..m]);
      HexLastPair(s, bytes);
      HexValueMeans(s[n], bytes[m] / 16);
      HexValueMeans(s[n + 1], bytes[m] % 16);
      HexPairsMore(s, bytes);
    }
  }

  lemma HexLastPair(s: string, bytes: seq<byte>)
    requires |s| >= 2 && bytes != []
    ensures var n, m := |s| - 2, |bytes| - 1;
      HexDecode(s) == Some(bytes) <==>
        HexDecode(s[..n]) == Some(bytes[..m])
        && HexValue(s[n]) == Some(bytes[m] / 16) && HexValue(s[n + 1]) == Some(bytes[m] % 16)
  {
    var n, m := |s| - 2, |bytes| - 1;
    var high, low := HexValue(s[n]), HexValue(s[n + 1]);
    if HexDecode(s[..n]).Some? && high.Some? && low.Some? {
      AppendedByte(HexDecode(s[..n]).value, high.value, low.value, bytes);
    }
  }

  lemma AppendedByte(before: seq<byte>, high: nat, low: nat, bytes: seq<byte>)
    requires bytes != [] && high < 16 && low < 16
    ensures var m := |bytes| - 1;
      before + [16 * high + low] == bytes <==> before == bytes[..m] && high == bytes[m] / 16 && low == bytes[m] % 16
  {
    var m, joined := |bytes| - 1, before + [16 * high + low];
    assert joined[..|before|] == before && joined[|before|] == 16 * high + low;
    assert bytes == bytes[..m] + [bytes[m]];
  }

  lemma HexPairsMore(s: string, bytes: seq<byte>)
    requires |s| >= 2 && bytes != []
    ensures var n, m := |s| - 2, |bytes| - 1;
      HexPairs(s, bytes) <==>
        HexPairs(s[..n], bytes[..m]) && IsHexDigit(s[n], bytes[m] / 16) && IsHexDigit(s[n + 1], bytes[m] % 16)
  {
    var n, m := |s| - 2, |bytes| - 1;
    if HexPairs(s[..n], bytes[..m]) && IsHexDigit(s[n], bytes[m] / 16) && IsHexDigit(s[n + 1], bytes[m] % 16) {
      forall i | 0 <= i < |bytes|
        ensures IsHexDigit(s[2 * i], bytes[i] / 16) && IsHexDigit(s[2 * i + 1], bytes[i] % 16)
      {
        if i < m {
          assert s[..n][2 * i] == s[2 * i] && s[..n][2 * i + 1] == s[2 * i + 1];
        }
      }
    }
    if HexPairs(s, bytes) {
      forall i | 0 <= i < m
        ensures IsHexDigit(s[..n][2 * i], bytes[..m][i] / 16) && IsHexDigit(s[..n][2 * i + 1], bytes[..m][i] % 16)
      {
        assert IsHexDigit(s[2 * i], bytes[i] / 16);
      }
      assert IsHexDigit(s[2 * m], bytes[m] / 16);
    }
  }
}
