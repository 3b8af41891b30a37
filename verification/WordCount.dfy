/** `wc.go`: counting the words of a text through the whole pipeline. */
module WordCount {
  import opened Collections
  import opened Sorting
  import opened MapReduceJobs
  import opened MapReduceSplit

  // ---- strings.FieldsFunc ----

  function RunEnd(letter: char -> bool, text: string, i: nat): (e: nat)
    requires i <= |text|
    ensures i <= e <= |text|
    ensures forall k | i <= k < e :: letter(text[k])
    ensures e < |text| ==> !letter(text[e])
    decreases |text| - i
  {
    if i == |text| || !letter(text[i]) then i else RunEnd(letter, text, i + 1)
  }

  function TokensFrom(letter: char -> bool, text: string, i: nat): seq<string>
    requires i <= |text|
    decreases |text| - i
  {
    if i == |text| then []
    else if !letter(text[i]) then TokensFrom(letter, text, i + 1)
    else
      var e := RunEnd(letter, text, i);
      [text[i..e]] + TokensFrom(letter, text, e)
  }

  function Tokens(letter: char -> bool, text: string): seq<string> {
    TokensFrom(letter, text, 0)
  }

  // ---- what counting words means ----

  /** `w` stands at position `i`, a run of letters with no letter on either side. */
  predicate OccursAt(letter: char -> bool, text: string, w: string, i: int) {
    && 0 <= i && w != "" && i + |w| <= |text| && text[i..i + |w|] == w
    && (forall k | 0 <= k < |w| :: letter(w[k]))
    && (i == 0 || !letter(text[i - 1]))
    && (i + |w| == |text| || !letter(text[i + |w|]))
  }

  function Positions(letter: char -> bool, text: string, w: string, lo: int): set<int> {
    set i | lo <= i < |text| && OccursAt(letter, text, w, i)
  }

  function Occurrences(letter: char -> bool, text: string, w: string): nat {
    |Positions(letter, text, w, 0)|
  }

  /** `i` is not inside a word. */
  predicate Boundary(letter: char -> bool, text: string, i: nat)
    requires i <= |text|
  {
    i == 0 || i == |text| || !letter(text[i - 1]) || !letter(text[i])
  }

  lemma {:induction false} RunEndIs(letter: char -> bool, text: string, i: nat, e: nat)
    requires i <= e <= |text| && (forall k | i <= k < e :: letter(text[k]))
    requires e == |text| || !letter(text[e])
    ensures RunEnd(letter, text, i) == e
    decreases e - i
  {
    if i < e {
      RunEndIs(letter, text, i + 1, e);
    }
  }

  lemma OccursLetters(letter: char -> bool, text: string, w: string, i: int)
    requires OccursAt(letter, text, w, i)
    ensures forall k | i <= k < i + |w| :: letter(text[k])
  {
    forall k | i <= k < i + |w| ensures letter(text[k]) {
      assert text[k] == text[i..i + |w|][k - i] == w[k - i];
    }
  }

  lemma OccursAtRun(letter: char -> bool, text: string, w: string, i: nat)
    requires i < |text| && letter(text[i]) && Boundary(letter, text, i)
    ensures OccursAt(letter, text, w, i) <==> w == text[i..RunEnd(letter, text, i)]
  {
    var e := RunEnd(letter, text, i);
    if OccursAt(letter, text, w, i) {
      OccursLetters(letter, text, w, i);
      RunEndIs(letter, text, i, i + |w|);
    }
    if w == text[i..e] {
      forall k | 0 <= k < |w| ensures letter(w[k]) {
        assert w[k] == text[i + k];
      }
    }
  }

  lemma NotInsideRun(letter: char -> bool, text: string, w: string, i: nat, k: int)
    requires i < |text| && i < k < RunEnd(letter, text, i)
    ensures !OccursAt(letter, text, w, k)
  {
    assert letter(text[k - 1]);
  }

  lemma PositionsSkip(letter: char -> bool, text: string, w: string, i: nat)
    requires i < |text| && !letter(text[i])
    ensures Positions(letter, text, w, i) == Positions(letter, text, w, i + 1)
  {
    forall k | OccursAt(letter, text, w, k) ensures letter(text[k]) {
      OccursLetters(letter, text, w, k);
    }
  }

  lemma PositionsFromRun(letter: char -> bool, text: string, w: string, i: nat)
    requires i < |text| && letter(text[i]) && Boundary(letter, text, i)
    ensures var e := RunEnd(letter, text, i);
      Positions(letter, text, w, i) == Positions(letter, text, w, e) + (if w == text[i..e] then {i as int} else {})
  {
    var e := RunEnd(letter, text, i);
    OccursAtRun(letter, text, w, i);
    forall k | i < k < e ensures !OccursAt(letter, text, w, k) {
      NotInsideRun(letter, text, w, i, k);
    }
  }

  lemma PositionsRun(letter: char -> bool, text: string, w: string, i: nat)
    requires i < |text| && letter(text[i]) && Boundary(letter, text, i)
    ensures var e := RunEnd(letter, text, i);
      |Positions(letter, text, w, i)| == |Positions(letter, text, w, e)| + (if w == text[i..e] then 1 else 0)
  {
    PositionsFromRun(letter, text, w, i);
    assert i !in Positions(letter, text, w, RunEnd(letter, text, i));
  }

  lemma {:induction false} TokensCount(letter: char -> bool, text: string, w: string, i: nat)
    requires i <= |text| && Boundary(letter, text, i)
    ensures multiset(TokensFrom(letter, text, i))[w] == |Positions(letter, text, w, i)|
    decreases |text| - i
  {
    if i == |text| {
      assert Positions(letter, text, w, i) == {};
    } else if !letter(text[i]) {
      PositionsSkip(letter, text, w, i);
      TokensCount(letter, text, w, i + 1);
    } else {
      var e := RunEnd(letter, text, i);
      PositionsRun(letter, text, w, i);
      TokensCount(letter, text, w, e);
    }
  }

  // ---- words do not cross a separator ----

  lemma {:induction false} TokensShift(letter: char -> bool, a: string, b: string, i: nat)
    requires i <= |b|
    ensures TokensFrom(letter, a + b, |a| + i) == TokensFrom(letter, b, i)
    decreases |b| - i
  {
    if i < |b| {
      assert (a + b)[|a| + i] == b[i];
      if !letter(b[i]) {
        TokensShift(letter, a, b, i + 1);
      } else {
        RunEndShift(letter, a, b, i);
        var e := RunEnd(letter, b, i);
        assert (a + b)[|a| + i..|a| + e] == b[i..e];
        TokensShift(letter, a, b, e);
      }
    }
  }

  lemma {:induction false} RunEndShift(letter: char -> bool, a: string, b: string, i: nat)
    requires i <= |b|
    ensures RunEnd(letter, a + b, |a| + i) == |a| + RunEnd(letter, b, i)
    decreases |b| - i
  {
    if i < |b| {
      assert (a + b)[|a| + i] == b[i];
      if letter(b[i]) {
        RunEndShift(letter, a, b, i + 1);
      }
    }
  }

  predicate Closed(letter: char -> bool, a: string) {
    a == "" || !letter(a[|a| - 1])
  }

  lemma {:induction false} RunEndPrefix(letter: char -> bool, a: string, b: string, i: nat)
    requires i <= |a| && (b == "" || Closed(letter, a) || !letter(b[0]))
    requires i < |a|
    ensures RunEnd(letter, a + b, i) == RunEnd(letter, a, i)
    decreases |a| - i
  {
    assert (a + b)[i] == a[i];
    if letter(a[i]) {
      if i + 1 < |a| {
        RunEndPrefix(letter, a, b, i + 1);
      } else {
        assert RunEnd(letter, a, i + 1) == i + 1;
        assert b != "" ==> (a + b)[i + 1] == b[0];
      }
    }
  }

  lemma {:induction false} TokensPrefix(letter: char -> bool, a: string, b: string, i: nat)
    requires i <= |a| && (b == "" || Closed(letter, a) || !letter(b[0]))
    ensures TokensFrom(letter, a + b, i) == TokensFrom(letter, a, i) + Tokens(letter, b)
    decreases |a| - i
  {
    if i == |a| {
      TokensShift(letter, a, b, 0);
    } else {
      assert (a + b)[i] == a[i];
      if !letter(a[i]) {
        TokensPrefix(letter, a, b, i + 1);
      } else {
        RunEndPrefix(letter, a, b, i);
        var e := RunEnd(letter, a, i);
        assert (a + b)[i..e] == a[i..e];
        TokensPrefix(letter, a, b, e);
      }
    }
  }

  /** Tokenising distributes where the first part ends, or the second begins, with a non-letter. */
  lemma TokensConcat(letter: char -> bool, a: string, b: string)
    requires b == "" || Closed(letter, a) || !letter(b[0])
    ensures Tokens(letter, a + b) == Tokens(letter, a) + Tokens(letter, b)
  {
    TokensPrefix(letter, a, b, 0);
  }

  lemma LineTokens(letter: char -> bool, line: string)
    requires !letter('\n') && !letter('\r')
    ensures Tokens(letter, line + "\n") == Tokens(letter, line)
    ensures Tokens(letter, DropCr(line) + "\n") == Tokens(letter, line)
  {
    SeparatorTokens(letter, line, '\n');
    SeparatorTokens(letter, DropCr(line), '\n');
    if DropCr(line) != line {
      SeparatorTokens(letter, DropCr(line), '\r');
      assert line == DropCr(line) + ['\r'];
    }
  }

  lemma SeparatorTokens(letter: char -> bool, a: string, c: char)
    requires !letter(c)
    ensures Tokens(letter, a + [c]) == Tokens(letter, a)
  {
    TokensConcat(letter, a, [c]);
    assert TokensFrom(letter, [c], 1) == [];
  }

  lemma FirstLineTokens(letter: char -> bool, text: string, e: nat)
    requires !letter('\n') && !letter('\r') && e < |text| && text[e] == '\n'
    ensures Tokens(letter, text) == Tokens(letter, DropCr(text[..e]) + "\n") + Tokens(letter, text[e + 1..])
  {
    LineTokens(letter, text[..e]);
    assert text == (text[..e] + "\n") + text[e + 1..];
    TokensConcat(letter, text[..e] + "\n", text[e + 1..]);
  }

  lemma LastLineTokens(letter: char -> bool, text: string)
    requires !letter('\n') && !letter('\r')
    ensures Tokens(letter, text) == Tokens(letter, DropCr(text) + "\n") + Tokens(letter, "")
  {
    LineTokens(letter, text);
    assert Tokens(letter, "") == [];
  }

  /** Neither dropping carriage returns nor adding the last newline changes the words. */
  lemma {:induction false} LinesKeepTokens(letter: char -> bool, text: string)
    requires !letter('\n') && !letter('\r')
    ensures Tokens(letter, Written(Lines(text))) == Tokens(letter, text)
    decreases |text|
  {
    if text != "" {
      var e := LineEnd(text);
      var line := DropCr(text[..e]);
      var rest := if e < |text| then text[e + 1..] else "";
      LinesKeepTokens(letter, rest);
      WrittenCons(line, Lines(rest));
      TokensConcat(letter, line + "\n", Written(Lines(rest)));
      if e < |text| {
        FirstLineTokens(letter, text, e);
      } else {
        assert text[..e] == text;
        LastLineTokens(letter, text);
      }
    }
  }

  // ---- Map and Reduce ----

  function Ones(words: seq<string>): seq<KeyValue> {
    seq(|words|, i requires 0 <= i < |words| => KeyValue(words[i], "1"))
  }

  function DigitOf(c: char): nat {
    if '0' <= c <= '9' then (c - '0') as nat else 0
  }

  predicate AllDigits(s: string) {
    s != "" && forall c | c in s :: '0' <= c <= '9'
  }

  function DigitsValue(s: string): nat {
    if s == "" then 0 else 10 * DigitsValue(s[..|s| - 1]) + DigitOf(s[|s| - 1])
  }

  /** `strconv.Atoi`, with the result 0 that an error leaves; integers are unbounded. */
  function Atoi(s: string): int {
    if AllDigits(s) then DigitsValue(s)
    else if s != "" && s[0] == '-' && AllDigits(s[1..]) then var v: int := DigitsValue(s[1..]); -v
    else if s != "" && s[0] == '+' && AllDigits(s[1..]) then DigitsValue(s[1..])
    else 0
  }

  function Digits(n: nat): string {
    if n < 10 then [n as char + '0'] else Digits(n / 10) + [(n % 10) as char + '0']
  }

  function Itoa(i: int): string {
    if i < 0 then "-" + Digits(-i) else Digits(i)
  }

  lemma {:induction false} DigitsRoundTrip(n: nat)
    ensures AllDigits(Digits(n)) && DigitsValue(Digits(n)) == n
  {
    if n < 10 {
      assert DigitsValue(Digits(n)) == 10 * DigitsValue([]) + n;
    } else {
      DigitsRoundTrip(n / 10);
      var d := Digits(n);
      assert d[..|d| - 1] == Digits(n / 10);
    }
  }

  lemma AtoiItoa(i: int)
    ensures Atoi(Itoa(i)) == i
  {
    if i < 0 {
      DigitsRoundTrip(-i);
      assert Itoa(i)[1..] == Digits(-i);
      assert Itoa(i)[0] in Itoa(i);
    } else {
      DigitsRoundTrip(i);
    }
  }

  /** A numeral as it is printed: digits without a leading zero, but for "0" itself, behind a
      '-' for a negative number. */
  predicate Plain(s: string) {
    AllDigits(s) && (|s| == 1 || s[0] != '0')
  }

  predicate Canonical(s: string) {
    Plain(s) || (s != "" && s[0] == '-' && Plain(s[1..]) && s[1..] != "0")
  }

  lemma {:induction false} DigitsArePlain(n: nat)
    ensures Plain(Digits(n)) && (0 < n ==> Digits(n)[0] != '0')
  {
    if n >= 10 {
      DigitsArePlain(n / 10);
    }
  }

  lemma LastDigit(s: string)
    requires AllDigits(s)
    ensures var init, last := s[..|s| - 1], s[|s| - 1];
      '0' <= last <= '9' && (init != "" ==> AllDigits(init)) && DigitsValue(s) == 10 * DigitsValue(init) + DigitOf(last)
  {
    var init := s[..|s| - 1];
    forall c | c in init ensures '0' <= c <= '9' {
      assert c in s;
    }
    assert s[|s| - 1] in s;
  }

  lemma {:induction false} PlainIsPositive(s: string)
    requires AllDigits(s) && s[0] != '0'
    ensures 0 < DigitsValue(s)
    decreases |s|
  {
    LastDigit(s);
    if |s| > 1 {
      PlainIsPositive(s[..|s| - 1]);
    }
  }

  lemma OneMoreDigit(q: nat, c: char)
    requires '0' <= c <= '9'
    ensures 0 < q ==> Digits(10 * q + DigitOf(c)) == Digits(q) + [c]
    ensures Digits(DigitOf(c)) == [c]
  {
  }

  lemma {:induction false} PlainRoundTrip(s: string)
    requires Plain(s)
    ensures Digits(DigitsValue(s)) == s
    decreases |s|
  {
    var init := s[..|s| - 1];
    LastDigit(s);
    OneMoreDigit(DigitsValue(init), s[|s| - 1]);
    assert s == init + [s[|s| - 1]];
    if init != "" {
      PlainIsPositive(init);
      PlainRoundTrip(init);
    }
  }

  lemma ItoaIsCanonical(i: int)
    ensures Canonical(Itoa(i))
  {
    DigitsArePlain(if i < 0 then -i else i);
    assert i < 0 ==> Itoa(i)[1..] == Digits(-i);
  }

  lemma NegativeNumeral(s: string)
    requires s != "" && s[0] == '-' && Plain(s[1..]) && s[1..] != "0"
    ensures Atoi(s) < 0 && Itoa(Atoi(s)) == s
  {
    var d := s[1..];
    assert s[0] in s;
    PlainRoundTrip(d);
    assert DigitsValue(d) == 0 ==> d == "0";
    assert s == "-" + d;
  }

  /** What is printed for `i` is the one canonical numeral that parses to `i`. */
  lemma ItoaIffCanonical(i: int, s: string)
    ensures s == Itoa(i) <==> Canonical(s) && Atoi(s) == i
  {
    AtoiItoa(i);
    ItoaIsCanonical(i);
    if Plain(s) {
      PlainRoundTrip(s);
    } else if Canonical(s) {
      NegativeNumeral(s);
    }
  }

  function Power10(n: nat): nat {
    if n == 0 then 1 else 10 * Power10(n - 1)
  }

  lemma TenTimes(v: nat, p: nat)
    ensures 10 * (v * p) == v * (10 * p)
  {
  }

  /** Digits count by their place, in base ten. */
  lemma {:induction false} DigitsPlaces(a: string, b: string)
    ensures DigitsValue(a + b) == DigitsValue(a) * Power10(|b|) + DigitsValue(b)
    decreases |b|
  {
    if b == "" {
      assert a + b == a;
    } else {
      DigitsPlaces(a, b[..|b| - 1]);
      TenTimes(DigitsValue(a), Power10(|b| - 1));
      assert (a + b)[..|a + b| - 1] == a + b[..|b| - 1];
    }
  }

  /** A sign may stand in front; anything else counts for nothing. */
  lemma AtoiSigns(d: string)
    ensures AllDigits(d) ==> Atoi(d) == Atoi("+" + d) == DigitsValue(d) && Atoi("-" + d) == -Atoi(d)
    ensures !AllDigits(d) ==> Atoi("+" + d) == Atoi("-" + d) == 0
    ensures !AllDigits(d) && (d == "" || (d[0] != '+' && d[0] != '-')) ==> Atoi(d) == 0
  {
    var plus, minus := "+" + d, "-" + d;
    assert plus[0] in plus && minus[0] in minus && plus[1..] == d && minus[1..] == d;
  }

  function Sum(values: seq<string>): int {
    if values == [] then 0 else Sum(values[..|values| - 1]) + Atoi(values[|values| - 1])
  }

  method Map(letter: char -> bool, value: string) returns (l: seq<KeyValue>)
    ensures l == Ones(Tokens(letter, value))
  {
    l := [];
    var fields := Tokens(letter, value);
    for i := 0 to |fields|
      invariant l == Ones(fields[..i])
    {
      l := l + [KeyValue(fields[i], "1")];
    }
    assert fields[..|fields|] == fields;
  }

  method Reduce(key: string, values: seq<string>) returns (r: string)
    ensures r == Itoa(Sum(values)) && Canonical(r) && Atoi(r) == Sum(values)
  {
    var result := 0;
    for i := 0 to |values|
      invariant result == Sum(values[..i])
    {
      assert values[..i + 1][..i] == values[..i];
      result := result + Atoi(values[i]);
    }
    assert values[..|values|] == values;
    r := Itoa(result);
    ItoaIffCanonical(result, r);
  }

  lemma {:induction false} SumConcat(a: seq<string>, b: seq<string>)
    ensures Sum(a + b) == Sum(a) + Sum(b)
    decreases |b|
  {
    if b == [] {
      assert a + b == a;
    } else {
      SumConcat(a, b[..|b| - 1]);
      assert (a + b)[..|a + b| - 1] == a + b[..|b| - 1];
    }
  }

  lemma SumOne(v: string)
    ensures Sum([v]) == Atoi(v)
  {
    assert Sum([v][..0]) == 0;
  }

  // ---- end to end ----

  function WordCountJob(letter: char -> bool, nMap: nat, nReduce: nat, hash: string -> nat): Job {
    Job(nMap, nReduce, text => Ones(Tokens(letter, text)), (key, values) => Itoa(Sum(values)), hash)
  }

  function SplitMap(files: seq<string>): map<nat, string> {
    map i: nat | i < |files| :: files[i]
  }

  lemma SumSnoc(values: seq<string>)
    ensures Sum(values + ["1"]) == Sum(values) + 1
  {
    SumConcat(values, ["1"]);
    SumOne("1");
    assert DigitsValue("1") == 10 * DigitsValue("") + 1;
  }

  lemma OnesSnoc(words: seq<string>, last: string, w: string)
    ensures last == w ==> ValuesOf(Ones(words + [last]), w) == ValuesOf(Ones(words), w) + ["1"]
    ensures last != w ==> ValuesOf(Ones(words + [last]), w) == ValuesOf(Ones(words), w)
    ensures KeysOf(Ones(words + [last])) == KeysOf(Ones(words)) + {last}
  {
    assert Ones(words + [last]) == Ones(words) + [KeyValue(last, "1")];
    assert Ones(words + [last])[..|words|] == Ones(words);
    KeysSnoc(Ones(words), KeyValue(last, "1"));
  }

  lemma {:induction false} CountOnes(words: seq<string>, w: string)
    ensures Sum(ValuesOf(Ones(words), w)) == multiset(words)[w]
    ensures w in KeysOf(Ones(words)) <==> w in words
    decreases |words|
  {
    if words != [] {
      var init, last := words[..|words| - 1], words[|words| - 1];
      CountOnes(init, w);
      assert words == init + [last];
      OnesSnoc(init, last, w);
      SumSnoc(ValuesOf(Ones(init), w));
      MultisetSnoc(init, last, w);
    } else {
      assert ValuesOf(Ones([]), w) == [];
    }
  }

  lemma EmitsTokens(job: Job, letter: char -> bool, file: string)
    requires job.mapF == (text => Ones(Tokens(letter, text)))
    ensures job.mapF(file) == Ones(Tokens(letter, file))
  {
  }

  lemma ConcatStep(files: seq<string>, n: nat)
    requires 0 < n <= |files|
    ensures Concat(files[..n]) == Concat(files[..n - 1]) + files[n - 1]
  {
    assert files[..n][..n - 1] == files[..n - 1];
  }

  lemma OnesConcat(a: seq<string>, b: seq<string>)
    ensures Ones(a + b) == Ones(a) + Ones(b)
  {
  }

  lemma {:induction false} EmittedTokens(job: Job, letter: char -> bool, files: seq<string>, n: nat)
    requires !letter('\n') && n <= |files|
    requires forall k | 0 <= k < |files| :: EndsLine(files[k]) && job.mapF(files[k]) == Ones(Tokens(letter, files[k]))
    ensures Emitted(job, SplitMap(files), n) == Ones(Tokens(letter, Concat(files[..n])))
    ensures EndsLine(Concat(files[..n]))
  {
    if n == 0 {
      assert Tokens(letter, "") == [];
    } else {
      EmittedTokens(job, letter, files, n - 1);
      ConcatStep(files, n);
      TokensConcat(letter, Concat(files[..n - 1]), files[n - 1]);
      OnesConcat(Tokens(letter, Concat(files[..n - 1])), Tokens(letter, files[n - 1]));
    }
  }

  /** `out` lists, in order, exactly the words of `text`, each with the number of its
      occurrences as it is usually written. */
  ghost predicate IsWordCount(letter: char -> bool, text: string, out: seq<KeyValue>) {
    && (forall w :: w in KeysOf(out) <==> 0 < Occurrences(letter, text, w))
    && (forall i | 0 <= i < |out| ::
          Canonical(out[i].value) && Atoi(out[i].value) == Occurrences(letter, text, out[i].key))
    && (forall i, j | 0 <= i < j < |out| :: Less(out[i].key, out[j].key))
  }

  /** There is an output iff every split file exists, and it counts the words of the text. */
  lemma WordCountEndToEnd(letter: char -> bool, text: string, nMap: nat, nReduce: nat, hash: string -> nat)
    requires 0 < nMap && 0 < nReduce && !letter('\n') && !letter('\r')
    ensures var out := RunSingle(WordCountJob(letter, nMap, nReduce, hash), SplitMap(Split(text, nMap)));
      && (out.Some? <==> |Split(text, nMap)| == nMap)
      && (out.Some? ==> IsWordCount(letter, text, out.value))
  {
    var job := WordCountJob(letter, nMap, nReduce, hash);
    var files := Split(text, nMap);
    var splits := SplitMap(files);
    AtMostNMap(text, nMap);
    RunSingleIsGroupBy(job, splits);
    if |files| < nMap {
      assert |files| !in splits;
    } else {
      SplitTokens(letter, job, text, nMap);
      GroupByMeaning(job, splits);
      CountedWords(letter, text, job, GroupBy(job, splits));
    }
  }

  /** So each word's count is printed in the output. */
  lemma CountsCanBeRead(letter: char -> bool, text: string, out: seq<KeyValue>, w: string) returns (i: nat)
    requires IsWordCount(letter, text, out) && 0 < Occurrences(letter, text, w)
    ensures i < |out| && out[i] == KeyValue(w, Itoa(Occurrences(letter, text, w)))
  {
    assert w in KeysOf(out);
    var kv :| kv in out && kv.key == w;
    i :| 0 <= i < |out| && out[i] == kv;
    ItoaIffCanonical(Occurrences(letter, text, w), kv.value);
  }

  /** The map jobs together emit the words of the whole input. */
  lemma SplitTokens(letter: char -> bool, job: Job, text: string, nMap: nat)
    requires 0 < nMap && !letter('\n') && !letter('\r') && job.mapF == (text => Ones(Tokens(letter, text)))
    requires |Split(text, nMap)| == nMap
    ensures Emitted(job, SplitMap(Split(text, nMap)), nMap) == Ones(Tokens(letter, text))
  {
    var files := Split(text, nMap);
    SplitKeepsLines(ChunkSize(text, nMap), Lines(text));
    forall k | 0 <= k < nMap ensures EndsLine(files[k]) && job.mapF(files[k]) == Ones(Tokens(letter, files[k])) {
      EmitsTokens(job, letter, files[k]);
    }
    EmittedTokens(job, letter, files, nMap);
    assert files[..nMap] == files;
    SplitConserves(ChunkSize(text, nMap), Lines(text));
    LinesKeepTokens(letter, text);
  }

  lemma CountedWords(letter: char -> bool, text: string, job: Job, out: seq<KeyValue>)
    requires KeysOf(out) == KeysOf(Ones(Tokens(letter, text)))
    requires forall i | 0 <= i < |out| ::
      out[i].value == Itoa(Sum(ValuesOf(Ones(Tokens(letter, text)), out[i].key)))
    ensures forall w :: w in KeysOf(out) <==> 0 < Occurrences(letter, text, w)
    ensures forall i | 0 <= i < |out| ::
      Canonical(out[i].value) && Atoi(out[i].value) == Occurrences(letter, text, out[i].key)
  {
    forall w ensures w in KeysOf(out) <==> 0 < Occurrences(letter, text, w) {
      TokensCount(letter, text, w, 0);
      CountOnes(Tokens(letter, text), w);
    }
    forall i | 0 <= i < |out|
      ensures Canonical(out[i].value) && Atoi(out[i].value) == Occurrences(letter, text, out[i].key)
    {
      ItoaIffCanonical(Occurrences(letter, text, out[i].key), out[i].value);
      TokensCount(letter, text, out[i].key, 0);
      CountOnes(Tokens(letter, text), out[i].key);
    }
  }
}
